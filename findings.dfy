/**
  The report the analyzer produces and the bookkeeping over its findings:
  per-line rules collected in line order, counts by category, and where a
  finding that names a line got it from.
 */
module Findings {
  import opened Wrappers
  import opened Text

  datatype Severity = High | Medium | Low

  datatype Category =
    | CodeStructure | CodeQuality | Readability | Complexity
    | ModernJavaScript | Diagnostics | ErrorHandling

  /** The ten findings the analyzer can push, each with the value its text quotes. */
  datatype Kind =
    | VeryLargeFile(lineCount: nat)
    | LargeFile(lineCount: nat)
    | MagicNumber(value: string)
    | LongLine(length: nat)
    | HighComplexity(complexity: nat)
    | ElevatedComplexity(complexity: nat)
    | VarUsage
    | ConsoleLog
    | NoConstLet
    | EmptyCatch

  /** One pushed finding: what it is, and the 1-based line it names with that
      line trimmed, both absent (`null` in the source) for whole-file findings.
      `Render` spells out the object literal the source pushes. */
  datatype Finding = Finding(kind: Kind, lineNumber: Option<nat>, codeSnippet: Option<string>)

  datatype Report = Report(score: int, summary: string, improvements: seq<Finding>)

  function CategoryOf(k: Kind): Category {
    match k
    case VeryLargeFile(_) => CodeStructure
    case LargeFile(_) => CodeStructure
    case MagicNumber(_) => CodeQuality
    case LongLine(_) => Readability
    case HighComplexity(_) => Complexity
    case ElevatedComplexity(_) => Complexity
    case VarUsage => ModernJavaScript
    case ConsoleLog => Diagnostics
    case NoConstLet => ModernJavaScript
    case EmptyCatch => ErrorHandling
  }

  function SeverityOf(k: Kind): Severity {
    match k
    case VeryLargeFile(_) => High
    case LargeFile(_) => Medium
    case MagicNumber(_) => Low
    case LongLine(_) => Low
    case HighComplexity(_) => High
    case ElevatedComplexity(_) => Medium
    case VarUsage => Medium
    case ConsoleLog => Low
    case NoConstLet => Medium
    case EmptyCatch => High
  }

  /** A whole-file finding. */
  function Whole(k: Kind): (f: Finding)
    ensures f.kind == k && f.lineNumber == None && f.codeSnippet == None
  {
    Finding(k, None, None)
  }

  /** A finding about `ln`, the i-th (0-based) line: it names line i + 1 and
      quotes it trimmed. */
  function At(k: Kind, ln: string, i: nat): (f: Finding)
    ensures f.kind == k && f.lineNumber == Some(i + 1) && f.codeSnippet == Some(Trim(ln))
  {
    Finding(k, Some(i + 1), Some(Trim(ln)))
  }

  // ---------------------------------------------------------------------------
  // The object literals as the source writes them
  // ---------------------------------------------------------------------------

  /** An entry of `improvements` as the source's object literal spells it. */
  datatype Improvement = Improvement(
    category: string,
    issue: string,
    suggestion: string,
    severity: string,
    lineNumber: Option<nat>,
    codeSnippet: Option<string>,
    impact: string,
    example: Option<string>)

  function CategoryName(c: Category): string {
    match c
    case CodeStructure => "Code Structure"
    case CodeQuality => "Code Quality"
    case Readability => "Readability"
    case Complexity => "Complexity"
    case ModernJavaScript => "Modern JavaScript"
    case Diagnostics => "Diagnostics"
    case ErrorHandling => "Error Handling"
  }

  function SeverityName(s: Severity): string {
    match s
    case High => "high"
    case Medium => "medium"
    case Low => "low"
  }

  function Issue(k: Kind): string {
    match k
    case VeryLargeFile(n) => "Very large file (" + DecimalString(n) + " lines)."
    case LargeFile(n) => "Large file (" + DecimalString(n) + " lines). Consider splitting into modules."
    case MagicNumber(v) => "Magic number '" + v + "' detected."
    case LongLine(len) => "Line exceeds 100 chars (" + DecimalString(len) + ")."
    case HighComplexity(c) => "High cyclomatic complexity (~" + DecimalString(c) + ")."
    case ElevatedComplexity(c) => "Elevated cyclomatic complexity (~" + DecimalString(c) + ")."
    case VarUsage => "Usage of 'var' detected."
    case ConsoleLog => "console.log found. Consider structured logging or remove in production."
    case NoConstLet => "No 'const' or 'let' detected."
    case EmptyCatch => "Empty catch block detected."
  }

  function Suggestion(k: Kind): string {
    match k
    case VeryLargeFile(_) => "Split into cohesive modules and extract helpers to reduce cognitive load."
    case LargeFile(_) => "Extract logical sections into separate files and functions."
    case MagicNumber(_) => "Extract to a named constant (e.g., MAX_RETRIES, TIMEOUT_MS)."
    case LongLine(_) => "Break expressions, wrap parameters, or extract variables."
    case HighComplexity(_) => "Decompose into smaller functions and use early returns to flatten logic."
    case ElevatedComplexity(_) => "Extract helpers and reduce branching depth."
    case VarUsage => "Use 'const' by default; 'let' only when reassignment is needed."
    case ConsoleLog => "Guard logs behind env checks or use a logger with levels."
    case NoConstLet => "Prefer 'const' for immutability and safer scoping."
    case EmptyCatch => "Log, wrap, or rethrow the error with context."
  }

  function Impact(k: Kind): string {
    match k
    case VeryLargeFile(_) => "Smaller files are easier to understand, review, and test."
    case LargeFile(_) => "Improves maintainability and navigability."
    case MagicNumber(_) => "Named constants convey intent and simplify future changes."
    case LongLine(_) => "Shorter lines reduce horizontal scrolling and ease review."
    case HighComplexity(_) => "High complexity increases bug risk and makes testing harder."
    case ElevatedComplexity(_) => "Leaner functions are easier to reason about."
    case VarUsage => "Block scoping prevents accidental hoisting bugs."
    case ConsoleLog => "Uncontrolled logging can leak data and clutter output."
    case NoConstLet => "Immutability reduces unintended side effects."
    case EmptyCatch => "Swallowing errors hides failures and complicates debugging."
  }

  function Example(k: Kind): Option<string> {
    match k
    case VeryLargeFile(_) =>
      Some("// before: one giant file\n// after: utils/date.ts, services/api.ts, components/Button.tsx")
    case LargeFile(_) => None
    case MagicNumber(v) => Some("const TIMEOUT_MS = " + v + ";\nfetch(url, { signal, timeout: TIMEOUT_MS });")
    case LongLine(_) => Some("const result = veryLongFunction(\n  arg1,\n  arg2,\n  arg3\n);")
    case HighComplexity(_) =>
      Some("function isEligible(user) {\n  if (!user) return false;\n  if (!user.active) return false;\n  return user.age > 18;\n}")
    case ElevatedComplexity(_) => None
    case VarUsage => Some("const value = 1; // instead of var value = 1;")
    case ConsoleLog => Some("if (process.env.NODE_ENV !== 'production') console.debug(data);")
    case NoConstLet => Some("const count = 0; let total = 0;")
    case EmptyCatch => Some("} catch (err) {\n  logger.error('Operation failed', { err });\n  throw err;\n}")
  }

  /** The object literal pushed for `f`: its location is carried over and
      every text is the one fixed for its kind. */
  function Render(f: Finding): (r: Improvement)
    ensures r.category == CategoryName(CategoryOf(f.kind)) && r.severity == SeverityName(SeverityOf(f.kind))
    ensures r.lineNumber == f.lineNumber && r.codeSnippet == f.codeSnippet
    ensures r.example.None? <==> f.kind.LargeFile? || f.kind.ElevatedComplexity?
  {
    Improvement(CategoryName(CategoryOf(f.kind)), Issue(f.kind), Suggestion(f.kind), SeverityName(SeverityOf(f.kind)),
      f.lineNumber, f.codeSnippet, Impact(f.kind), Example(f.kind))
  }

  /** What `lines.forEach((ln, i) => ...)` pushes for the first n lines, in
      line order (`CollectSilent`, `CollectLength`, `CollectAll` and
      `CollectLocated` state what it holds). */
  function Collect(lines: seq<string>, rule: (string, nat) -> seq<Finding>, n: nat): seq<Finding>
    requires n <= |lines|
  {
    if n == 0 then [] else Collect(lines, rule, n - 1) + rule(lines[n - 1], n - 1)
  }

  /** The rule pushes nothing over the first n lines exactly when it reports
      nothing on each of them. */
  lemma {:induction false} CollectSilent(lines: seq<string>, rule: (string, nat) -> seq<Finding>, n: nat)
    requires n <= |lines|
    ensures Collect(lines, rule, n) == [] <==> forall i | 0 <= i < n :: rule(lines[i], i) == []
  {
    if n > 0 {
      CollectSilent(lines, rule, n - 1);
      var prev := Collect(lines, rule, n - 1);
      var last := rule(lines[n - 1], n - 1);
      assert Collect(lines, rule, n) == prev + last;
      assert |prev + last| == |prev| + |last|;
    }
  }

  /** Pushing line i's findings after those of the lines before it gives
      those of lines 0..i. */
  lemma CollectPush(acc: seq<Finding>, lines: seq<string>, rule: (string, nat) -> seq<Finding>, i: nat)
    requires i < |lines|
    ensures acc + Collect(lines, rule, i) + rule(lines[i], i) == acc + Collect(lines, rule, i + 1)
  {
  }

  /** How many of the first n lines satisfy `holds`. */
  function CountLines(lines: seq<string>, holds: string -> bool, n: nat): nat
    requires n <= |lines|
  {
    if n == 0 then 0 else CountLines(lines, holds, n - 1) + (if holds(lines[n - 1]) then 1 else 0)
  }

  /** The sum of `measure` over the first n lines. */
  function SumOver(lines: seq<string>, measure: string -> nat, n: nat): nat
    requires n <= |lines|
  {
    if n == 0 then 0 else SumOver(lines, measure, n - 1) + measure(lines[n - 1])
  }

  /** `fs.filter(it => it.category === c).length`. */
  function CountCategory(fs: seq<Finding>, c: Category): (count: nat)
    ensures count <= |fs|
  {
    if fs == [] then 0 else (if CategoryOf(fs[0].kind) == c then 1 else 0) + CountCategory(fs[1..], c)
  }

  lemma {:induction false} CountCategoryAppend(a: seq<Finding>, b: seq<Finding>, c: Category)
    ensures CountCategory(a + b, c) == CountCategory(a, c) + CountCategory(b, c)
    decreases |a|
  {
    if a != [] {
      assert (a + b)[0] == a[0] && (a + b)[1..] == a[1..] + b;
      CountCategoryAppend(a[1..], b, c);
    } else {
      assert a + b == b;
    }
  }

  /** Counting a category is counting the findings that carry it. */
  lemma {:induction false} CountCategoryExact(fs: seq<Finding>, c: Category)
    ensures (forall f <- fs :: CategoryOf(f.kind) == c) ==> CountCategory(fs, c) == |fs|
    ensures (forall f <- fs :: CategoryOf(f.kind) != c) ==> CountCategory(fs, c) == 0
    ensures CountCategory(fs, c) > 0 <==> exists f <- fs :: CategoryOf(f.kind) == c
    decreases |fs|
  {
    if fs != [] {
      CountCategoryExact(fs[1..], c);
      assert forall f <- fs[1..] :: f in fs;
      assert forall f <- fs :: f == fs[0] || f in fs[1..];
    }
  }

  /** After a rule that pushes only findings of category `c` onto a list that
      had none, the list holds exactly as many of `c` as the rule pushed. */
  lemma CountAfterRule(issues: seq<Finding>, found: seq<Finding>, c: Category)
    requires forall f <- issues :: CategoryOf(f.kind) != c
    requires forall f <- found :: CategoryOf(f.kind) == c
    ensures CountCategory(issues + found, c) == |found|
  {
    CountCategoryExact(issues, c);
    CountCategoryExact(found, c);
    CountCategoryAppend(issues, found, c);
  }

  /** A per-line rule whose findings on a line number as many as `measure` says
      pushes, over the first n lines, the sum of `measure`. */
  lemma {:induction false} CollectLength(lines: seq<string>, rule: (string, nat) -> seq<Finding>,
                                         measure: string -> nat, n: nat)
    requires n <= |lines|
    requires forall i | 0 <= i < n :: |rule(lines[i], i)| == measure(lines[i])
    ensures |Collect(lines, rule, n)| == SumOver(lines, measure, n)
  {
    if n > 0 { CollectLength(lines, rule, measure, n - 1); }
  }

  /** A per-line rule that reports a line exactly when it satisfies `holds`. */
  lemma {:induction false} CollectCount(lines: seq<string>, rule: (string, nat) -> seq<Finding>,
                                        holds: string -> bool, n: nat)
    requires n <= |lines|
    requires forall i | 0 <= i < n :: |rule(lines[i], i)| == (if holds(lines[i]) then 1 else 0)
    ensures |Collect(lines, rule, n)| == CountLines(lines, holds, n)
  {
    if n > 0 { CollectCount(lines, rule, holds, n - 1); }
  }

  /** A per-line rule whose findings all satisfy `p` pushes only such findings. */
  lemma {:induction false} CollectAll(lines: seq<string>, rule: (string, nat) -> seq<Finding>,
                                      p: Finding -> bool, n: nat)
    requires n <= |lines|
    requires forall i | 0 <= i < n :: forall f <- rule(lines[i], i) :: p(f)
    ensures forall f <- Collect(lines, rule, n) :: p(f)
  {
    if n > 0 { CollectAll(lines, rule, p, n - 1); }
  }

  /** A per-line rule that stamps its findings with the line it read: its
      findings name lines 1..n in non-decreasing order and quote them trimmed. */
  predicate StampsLine(lines: seq<string>, rule: (string, nat) -> seq<Finding>, i: nat)
    requires i < |lines|
  {
    forall f <- rule(lines[i], i) :: f.lineNumber == Some(i + 1) && f.codeSnippet == Some(Trim(lines[i]))
  }

  /** The line a finding names, 0 when it names none. */
  function LineOf(f: Finding): nat {
    if f.lineNumber.Some? then f.lineNumber.value else 0
  }

  /** Findings listed in non-decreasing line order. */
  predicate InLineOrder(fs: seq<Finding>) {
    forall j, k | 0 <= j < k < |fs| :: LineOf(fs[j]) <= LineOf(fs[k])
  }

  /** Appending findings that all name line m to findings in line order that
      name lines up to m keeps the list in line order. */
  lemma InLineOrderAppend(prev: seq<Finding>, last: seq<Finding>, m: nat)
    requires InLineOrder(prev)
    requires forall f <- prev :: LineOf(f) <= m
    requires forall f <- last :: LineOf(f) == m
    ensures InLineOrder(prev + last)
  {
    var fs := prev + last;
    forall j, k | 0 <= j < k < |fs| ensures LineOf(fs[j]) <= LineOf(fs[k]) {
      if k < |prev| {
        assert fs[j] == prev[j] && fs[k] == prev[k];
      } else if j < |prev| {
        assert fs[j] == prev[j] && prev[j] in prev;
        assert fs[k] == last[k - |prev|] && last[k - |prev|] in last;
      } else {
        assert fs[j] == last[j - |prev|] && last[j - |prev|] in last;
        assert fs[k] == last[k - |prev|] && last[k - |prev|] in last;
      }
    }
  }

  lemma {:induction false} CollectLocated(lines: seq<string>, rule: (string, nat) -> seq<Finding>, n: nat)
    requires n <= |lines|
    requires forall i | 0 <= i < n :: StampsLine(lines, rule, i)
    ensures forall f <- Collect(lines, rule, n) ::
      && f.lineNumber.Some? && 1 <= f.lineNumber.value <= n
      && f.codeSnippet == Some(Trim(lines[f.lineNumber.value - 1]))
    ensures InLineOrder(Collect(lines, rule, n))
  {
    if n > 0 {
      CollectLocated(lines, rule, n - 1);
      var prev := Collect(lines, rule, n - 1);
      var last := rule(lines[n - 1], n - 1);
      assert StampsLine(lines, rule, n - 1);
      InLineOrderAppend(prev, last, n);
    }
  }

  /** A finding that names a line names one of `lines` and quotes it trimmed;
      a finding that names no line quotes nothing. */
  predicate LocatedIn(fs: seq<Finding>, lines: seq<string>) {
    forall f <- fs ::
      && (f.lineNumber.Some? ==> 1 <= f.lineNumber.value <= |lines| && f.codeSnippet == Some(Trim(lines[f.lineNumber.value - 1])))
      && (f.lineNumber.None? ==> f.codeSnippet.None?)
  }

  /** `Math.max(lo, Math.min(hi, x))`. */
  function Clamp(x: int, lo: int, hi: int): (r: int)
    requires lo <= hi
    ensures lo <= r <= hi
    ensures r == x || (x < lo && r == lo) || (x > hi && r == hi)
  {
    if x < lo then lo else if x > hi then hi else x
  }
}
