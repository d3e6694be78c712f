# Coding Coach, modelled in Dafny

Coding Coach is a React component. A user uploads a source file, and the
component asks a remote language model for a review. The review is a score out
of 100, a summary, and a list of suggested improvements. When the model cannot
be reached, or its reply does not parse, a local heuristic analyzer produces the
report instead. This project models the logic behind that component and proves
what it does:

- **`Heuristic`**: the local analyzer `generateMockAnalysis`. It splits the code
  into lines and starts a running score at 85. It runs six rules in a fixed
  order: file size, magic numbers, long lines, complexity, JavaScript idioms and
  empty catch blocks. Each rule pushes findings and lowers the score. The score
  is then clamped to 0..100 and mapped to a summary.
  - `Analyze` states the report rule by rule as functions.
  - `GenerateMockAnalysis` is the step-by-step computation, written as one
    method per rule. Each of the five `forEach` loops over the lines (rules 2
    to 6) is a `for` loop. For rules 2 and 5 the loop body is a method of its
    own: `MagicLine`, whose inner `while` over `exec` is `ExecLoop`, and
    `IdiomLine`. The other loop bodies are written inside the loop. Each method
    is proved to compute what the functions state, so the whole method returns
    exactly `Analyze`.
- **`Patterns`**: the regular expressions the rules use. Each is written out as
  a scanner over the characters of a line. It has the JavaScript semantics of
  the call that uses it:
  - `exec` with the shared `lastIndex`;
  - `match` counting leftmost non-overlapping matches;
  - `test`.
- **`Findings`**: the finding records, and how they are collected, counted by
  category and located by line.
- **`HeuristicProperties`**: what the report means.
  - The score can be recomputed from the findings alone.
  - Every finding that names a line names a real line and quotes it trimmed.
  - The JavaScript rule stays silent for other languages.
  - The empty text is one empty line.
- **`Coach`**: the component.
  - Its state cells `file`, `code`, `analysis`, `loading` and `error` are the
    fields of the class `CodingCoach`.
  - `AnalyzeCode` is the state update `analyzeCode` performs. How the request to
    the remote model ended is a `RemoteOutcome` value. `JSON.parse` is a
    function parameter that may fail.
  - The module also models fence stripping of the reply and `getScoreColor`.
- **`Languages`**: `getLanguageFromExtension`.
- **`Locale`**: `findMatchingLocale`, `t` and the translation table.
- **`Text`**: the string primitives, with JavaScript's meaning: `trim`, `split`
  on one character, `toLowerCase` on extensions, and numbers in template
  strings.

Some consequences the proofs establish:

- Every rule only deducts, so the local score never exceeds 85. The "Excellent
  code quality!" summary (score ≥ 90) is therefore never produced by the local
  analyzer.
- The initial summary "Good code with room for improvement." is always
  overwritten by one of the four branches, so it never reaches the report.

## Model

| member | source | states |
|---|---|---|
| Text.Trim | src/components/CodingCoach.tsx:234 | trimming never lengthens the text, and leaves text that neither starts nor ends with white space as it is |
| Text.TrimEnds | src/components/CodingCoach.tsx:234 | trimming leaves text that neither starts nor ends with white space, and leaves nothing only of all-white-space text |
| Text.TrimIsUnique | src/components/CodingCoach.tsx:234 | trim is the unique slice whose outside is all white space and whose ends are not white space |
| Text.TrimIdempotent | src/components/CodingCoach.tsx:473 | trimming twice is trimming once |
| Text.TrimAppendWhitespace | src/components/CodingCoach.tsx:473 | a white-space character added at the end is trimmed away |
| Text.Split | src/components/CodingCoach.tsx:190 | `split` on one character gives at least one piece, and no piece contains the separator |
| Text.SplitPieces | src/components/CodingCoach.tsx:190 | `split` on one character gives one more piece than there are separators |
| Text.JoinSplit | src/components/CodingCoach.tsx:190 | joining the pieces with the separator gives back the text |
| Text.SplitJoin | src/components/CodingCoach.tsx:190 | separator-free pieces come back from splitting their join |
| Text.IndexOf | src/components/CodingCoach.tsx:190 | the first occurrence of the character, or -1 exactly when there is none |
| Text.Lower | src/components/CodingCoach.tsx:140 | lower-cases A–Z and the Kelvin sign, keeping the length |
| Text.DecimalString | src/components/CodingCoach.tsx:198 | a count renders as digits with no leading zero |
| Text.DecimalRoundTrip | src/components/CodingCoach.tsx:198 | the rendered count reads back as the count |
| Patterns.SpanIsLongestRun | src/components/CodingCoach.tsx:222 | a greedy class run takes every matching character and stops at the first other one |
| Patterns.NumberEnd | src/components/CodingCoach.tsx:222 | the number group, when it matches, covers at least two characters |
| Patterns.NumberEndIsLiteral | src/components/CodingCoach.tsx:222 | what the number group matches is two or more digits, or digits, a dot and digits |
| Patterns.MatchAt | src/components/CodingCoach.tsx:222 | a match starts where it is tried and ends after it |
| Patterns.MatchAtIsMagic | src/components/CodingCoach.tsx:222 | a match reports a number literal that begins the line or follows a character outside `[A-Za-z_]` |
| Patterns.Exec | src/components/CodingCoach.tsx:225 | `exec` finds a match at or after `lastIndex` |
| Patterns.ExecIsLeftmost | src/components/CodingCoach.tsx:225 | `exec` finds the leftmost match from `lastIndex`, and finds none exactly when no position matches |
| Patterns.MagicNumbers | src/components/CodingCoach.tsx:225-227 | the `exec` loop on a line of n characters reports at most n/2 values, each a number literal of two or more characters occurring in the line as a magic number |
| Patterns.MagicNumbersAreLiterals | src/components/CodingCoach.tsx:225-227 | every value the loop reports is a number literal of two or more characters occurring in the line as a magic number |
| Patterns.LiteralStartsNumber | src/components/CodingCoach.tsx:221 | wherever a number literal starts, the number group of the pattern matches |
| Patterns.OccurrenceMatches | src/components/CodingCoach.tsx:221 | a magic occurrence makes the pattern match at the start of the line or at the character before it |
| Patterns.MagicPresentFound | src/components/CodingCoach.tsx:221-224 | a line holding any magic occurrence yields at least one reported number: the scan misses none |
| Patterns.MagicFirstIsLeftmost | src/components/CodingCoach.tsx:221-226 | the first reported number is a magic occurrence and no magic occurrence starts before it |
| Patterns.MagicNumbersBound | src/components/CodingCoach.tsx:225 | the `exec` loop ends: a line of n characters yields at most n/2 values |
| Patterns.BranchTokenAt | src/components/CodingCoach.tsx:264 | a branch token is at least two characters long and lies inside the line |
| Patterns.BranchCountBound | src/components/CodingCoach.tsx:264-268 | tokens do not overlap: at most half the line's length are counted |
| Patterns.BranchCount | src/components/CodingCoach.tsx:267-268 | a line of n characters counts at most n/2 tokens, and zero exactly when no token starts anywhere in it |
| Patterns.BranchCountZero | src/components/CodingCoach.tsx:267-268 | a line counts zero tokens exactly when no token starts anywhere in it |
| Patterns.FoundFromIsExists | src/components/CodingCoach.tsx:300 | `test` succeeds exactly when the pattern matches at some position |
| Patterns.HasVar | src/components/CodingCoach.tsx:300 | the `var` test succeeds exactly when `var` occurs as a whole word at some position |
| Patterns.HasConsoleLog | src/components/CodingCoach.tsx:313 | the `console.log(` test succeeds exactly when `console.log(` occurs at some position |
| Patterns.HasConstOrLet | src/components/CodingCoach.tsx:326 | the `const`/`let` test succeeds exactly when `const` or `let` occurs as a whole word at some position |
| Patterns.EmptyCatchAt | src/components/CodingCoach.tsx:343 | an empty `catch` block matched at a position fits in the line |
| Patterns.HasEmptyCatch | src/components/CodingCoach.tsx:343 | the empty-catch test succeeds exactly when an empty `catch` block starts at some position, so the line is at least as long as `catch(){}` |
| Patterns.ContainsIgnoreCase | src/components/CodingCoach.tsx:297 | a case-insensitive test succeeds exactly when the pattern occurs at some position, ignoring case |
| Patterns.IsJsLike | src/components/CodingCoach.tsx:297 | the gate holds exactly when `javascript`, `typescript` or `react` occurs in the language, ignoring case |
| Patterns.SkipWhitespace | src/components/CodingCoach.tsx:343 | a greedy `\s*` stays within the line |
| Findings.Whole | src/components/CodingCoach.tsx:201-202 | a whole-file finding names no line and quotes nothing |
| Findings.At | src/components/CodingCoach.tsx:233-234 | a per-line finding names the 1-based line and quotes it trimmed |
| Findings.Render | src/components/CodingCoach.tsx:196-205 | the pushed object carries the kind's category, severity and location, and has no example exactly for a large file or elevated complexity |
| Findings.CollectPush | src/components/CodingCoach.tsx:223 | pushing line i's findings after those of the earlier lines gives those of lines 0..i |
| Findings.CollectSilent | src/components/CodingCoach.tsx:223-239 | a per-line rule pushes nothing exactly when it reports nothing on every line |
| Findings.CountCategoryAppend | src/components/CodingCoach.tsx:240 | the filter-length count over two lists adds up |
| Findings.CountCategory | src/components/CodingCoach.tsx:240-242 | counting a category never counts more findings than the list holds |
| Findings.CountCategoryExact | src/components/CodingCoach.tsx:240-242 | the count is the list's length when all findings carry the category, 0 when none do, and positive exactly when one does |
| Findings.CountAfterRule | src/components/CodingCoach.tsx:240-244 | after a rule pushing only one category onto a list without it, the count is what the rule pushed |
| Findings.CollectLength | src/components/CodingCoach.tsx:223-239 | a per-line rule pushes, in total, the sum of its per-line counts |
| Findings.CollectCount | src/components/CodingCoach.tsx:247-260 | a rule reporting a line once exactly when it matches pushes one finding per matching line |
| Findings.CollectAll | src/components/CodingCoach.tsx:229 | a rule whose every finding has a property pushes only such findings |
| Findings.CollectLocated | src/components/CodingCoach.tsx:233-234 | a rule stamping its findings with their line produces findings naming lines 1..n, in line order, quoting them trimmed |
| Findings.Clamp | src/components/CodingCoach.tsx:359 | `Math.max(0, Math.min(100, score))` lies in the range and is the score unless it fell outside |
| Heuristic.FileSizeFindings | src/components/CodingCoach.tsx:195-219 | one Code Structure finding without location above 120 lines, none otherwise |
| Heuristic.MagicFindingsOf | src/components/CodingCoach.tsx:227-237 | one magic-number finding per value, in order: the j-th finding carries the j-th value and is located at the line |
| Heuristic.MagicLineFindings | src/components/CodingCoach.tsx:223-239 | a line yields one magic-number finding per value the `exec` loop reports: the j-th finding carries the j-th value and is located at the line |
| Heuristic.LongLineFindings | src/components/CodingCoach.tsx:247-260 | one long-line finding, carrying its length, exactly when the line exceeds 100 characters |
| Heuristic.ComplexityFindings | src/components/CodingCoach.tsx:270-294 | one Complexity finding without location above complexity 12, none otherwise |
| Heuristic.IdiomLineFindings | src/components/CodingCoach.tsx:299-325 | one finding for the word `var` and one for `console.log(`, each exactly when present |
| Heuristic.ConstLetFindings | src/components/CodingCoach.tsx:326-338 | one whole-file finding exactly when neither word `const` nor `let` occurs |
| Heuristic.EmptyCatchLineFindings | src/components/CodingCoach.tsx:342-356 | one located finding exactly when the line has an empty catch block |
| Heuristic.Summary | src/components/CodingCoach.tsx:360-364 | below 90 the summary is never the top one |
| Heuristic.AllFindings | src/components/CodingCoach.tsx:195-218 | the findings start with the file-size finding when the file has more than 120 lines: very large above 300, large otherwise |
| Heuristic.TotalPenalty | src/components/CodingCoach.tsx:192-356 | the deductions are at least 6 per empty-catch line and at most 34 plus 2 per `var` line and 6 per empty-catch line |
| Heuristic.Score | src/components/CodingCoach.tsx:192-359 | the score lies in 0..85: the clamp's floor and the baseline, since rules only deduct |
| Heuristic.Analyze | src/components/CodingCoach.tsx:189-367 | the report's score lies in 0..85, its summary follows the thresholds and is never "Excellent" |
| Heuristic.FileSizeRule | src/components/CodingCoach.tsx:195-219 | rule 1 appends the file-size findings and deducts 10, 5 or nothing |
| Heuristic.MagicFindingsAreQuality | src/components/CodingCoach.tsx:229 | rule 2 pushes only Code Quality findings |
| Heuristic.LongLineFindingsAreReadability | src/components/CodingCoach.tsx:250 | rule 3 pushes only Readability findings |
| Heuristic.MagicCount | src/components/CodingCoach.tsx:240-242 | the Code Quality filter at that point counts exactly the magic numbers |
| Heuristic.LongLineCount | src/components/CodingCoach.tsx:261 | the Readability check at that point sees exactly the long lines |
| Heuristic.MagicStep | src/components/CodingCoach.tsx:225-237 | one turn of the `exec` loop yields the finding for the match, then those after its end |
| Heuristic.ExecLoop | src/components/CodingCoach.tsx:225-238 | the `while` loop appends the line's findings from `lastIndex` on and leaves `lastIndex` at 0 |
| Heuristic.MagicLine | src/components/CodingCoach.tsx:223-239 | the callback on line i extends the findings of lines 0..i-1 to those of lines 0..i |
| Heuristic.MagicScan | src/components/CodingCoach.tsx:223-239 | the `forEach`, sharing one `lastIndex`, appends every line's magic-number findings in line order |
| Heuristic.MagicNumberRule | src/components/CodingCoach.tsx:222-244 | rule 2 appends its findings and deducts 6, 3 or 0 by the Code Quality count |
| Heuristic.LongLineScan | src/components/CodingCoach.tsx:247-260 | the `forEach` appends a finding per line over 100 characters, in line order |
| Heuristic.LongLineRule | src/components/CodingCoach.tsx:247-261 | rule 3 appends its findings and deducts a flat 2 when any Readability finding exists |
| Heuristic.ComplexityRule | src/components/CodingCoach.tsx:264-294 | complexity is 1 plus every line's token count; rule 4 appends its finding and deducts 12, 6 or 0 |
| Heuristic.IdiomLine | src/components/CodingCoach.tsx:299-324 | the callback appends the line's idiom findings and deducts 2 for `var` only |
| Heuristic.IdiomScan | src/components/CodingCoach.tsx:299-325 | the `forEach` appends every line's idiom findings and deducts 2 per line with `var` |
| Heuristic.IdiomRule | src/components/CodingCoach.tsx:297-339 | rule 5 runs only for JavaScript-like languages, appending its findings and deducting its penalty |
| Heuristic.EmptyCatchRule | src/components/CodingCoach.tsx:342-356 | rule 6 appends a finding and deducts 6 per line with an empty catch block |
| Heuristic.GenerateMockAnalysis | src/components/CodingCoach.tsx:189-367 | the step-by-step computation returns exactly the report `Analyze` specifies |
| HeuristicProperties.LineCount | src/components/CodingCoach.tsx:190 | the code has one line more than it has newlines, and the lines rejoin to the code |
| HeuristicProperties.FileSizeByNewlines | src/components/CodingCoach.tsx:195-219 | −10 exactly for 300 or more newlines, −5 exactly for 120 to 299 |
| HeuristicProperties.WeightSumAppend | src/components/CodingCoach.tsx:191 | the weight of findings adds up over concatenation |
| HeuristicProperties.MagicAndLongWeights | src/components/CodingCoach.tsx:228-258 | magic-number and long-line findings cost nothing on their own |
| HeuristicProperties.VarWeight | src/components/CodingCoach.tsx:299-312 | the per-line idiom findings weigh 2 per line with `var` |
| HeuristicProperties.IdiomWeight | src/components/CodingCoach.tsx:297-339 | the idiom findings weigh exactly the idiom rule's deduction |
| HeuristicProperties.EmptyCatchWeight | src/components/CodingCoach.tsx:342-356 | the empty-catch findings weigh 6 each |
| HeuristicProperties.ReportCounts | src/components/CodingCoach.tsx:240-261 | in the final report the Code Quality findings are exactly rule 2's and the Readability ones exactly rule 3's |
| HeuristicProperties.ReportWeight | src/components/CodingCoach.tsx:206-354 | the report's findings weigh what rules 1, 4, 5 and 6 deduct |
| HeuristicProperties.PenaltyMatches | src/components/CodingCoach.tsx:206-354 | what the findings stand for equals the six rules' total deduction |
| HeuristicProperties.ScoreFromFindings | src/components/CodingCoach.tsx:192-359 | the score is 85 less what the reported findings stand for, clamped to 0..100 |
| HeuristicProperties.FindingsAreLocated | src/components/CodingCoach.tsx:233-234 | every finding naming a line names one of the code's lines and quotes it trimmed; per-line rules report in line order |
| HeuristicProperties.CollectMagicFrom | src/components/CodingCoach.tsx:223-239 | a per-line rule whose magic-number findings carry values reported on their own line keeps that for all the lines it collects |
| HeuristicProperties.MagicValuesReported | src/components/CodingCoach.tsx:223-237 | every magic-number finding of the report names a line of the code and carries a value the `exec` loop reports on that line |
| HeuristicProperties.MagicValuesAreLiterals | src/components/CodingCoach.tsx:222-237 | every magic-number finding of the report carries a number literal of two or more characters that occurs in the named line without an identifier character right before it |
| HeuristicProperties.LanguageGate | src/components/CodingCoach.tsx:297-298 | for a language that is not JavaScript-like, no idiom finding is reported and nothing is deducted for idioms |
| HeuristicProperties.NoConstLetReported | src/components/CodingCoach.tsx:326-338 | for a JavaScript-like language and code without `const`/`let`, the report contains that finding and at least 4 is deducted |
| HeuristicProperties.EmptyCode | src/components/CodingCoach.tsx:190-364 | empty code is one empty line of complexity 1: 85 with no findings, or 81 with the missing `const`/`let` finding for JavaScript-like languages |
| Languages.Extension | src/components/CodingCoach.tsx:140 | the extension contains no dot, and a name without a dot is its own extension, lower-cased |
| Languages.LanguageMap | src/components/CodingCoach.tsx:141-186 | every key of the table is a non-empty lower-case extension without a dot, and every label is non-empty |
| Languages.GetLanguageFromExtension | src/components/CodingCoach.tsx:139-187 | the result is the table's label for the extension, and empty exactly when the extension is not in the table |
| Languages.SplitLast | src/components/CodingCoach.tsx:140 | the last piece of `s.e` split on dots is `e` when `e` has no dot |
| Languages.ExtensionOfDotted | src/components/CodingCoach.tsx:140 | the extension of `base.e` is `e` lower-cased, whatever the base is |
| Languages.LowerIdempotent | src/components/CodingCoach.tsx:140 | lower-casing twice is lower-casing once |
| Languages.SplitLower | src/components/CodingCoach.tsx:140 | splitting on dots commutes with lower-casing |
| Languages.ExtensionIgnoresCase | src/components/CodingCoach.tsx:139-187 | the extension and the label ignore the case of the file name |
| Languages.JsLabelsAreJsLike | src/components/CodingCoach.tsx:297 | the four JavaScript and TypeScript labels pass the idiom gate |
| Languages.JsLikeLabels | src/components/CodingCoach.tsx:139-187 | `.js`, `.jsx`, `.ts` and `.tsx` files get the idiom rule; unknown extensions do not |
| Locale.Keys | src/components/CodingCoach.tsx:68 | `Object.keys` lists each entry's key in order |
| Locale.Lookup | src/components/CodingCoach.tsx:66 | a found value belongs to an entry with that key, and nothing is found exactly when the key is absent |
| Locale.Translation | src/components/CodingCoach.tsx:72 | a text is found only for a key of the en-US table |
| Locale.FirstWithPrefix | src/components/CodingCoach.tsx:68 | `find` returns the first key that starts with the prefix, or none when no key does |
| Locale.FindMatchingLocale | src/components/CodingCoach.tsx:65-70 | the resolved locale is always a key of the table |
| Locale.MatchingLocaleChoice | src/components/CodingCoach.tsx:65-70 | a known locale is kept; otherwise the result shares its language tag, or is en-US when no key has that tag |
| Locale.MatchingLocaleIdempotent | src/components/CodingCoach.tsx:65-70 | resolving a resolved locale changes nothing |
| Locale.SpanishVariants | src/components/CodingCoach.tsx:67-68 | every `es-<region>` resolves to es-ES, whatever the region holds (dashes included, as in `es-Latn-MX`) |
| Locale.TagPrefix | src/components/CodingCoach.tsx:67-68 | a dash-free tag followed by `-` prefixes a key only if it is the key's part before its first dash |
| Locale.UnknownLanguage | src/components/CodingCoach.tsx:67-69 | a locale of a language other than en and es resolves to en-US |
| Locale.SameKeys | src/components/CodingCoach.tsx:4-61 | both locales define the same keys in the same order |
| Locale.TextsNonEmpty | src/components/CodingCoach.tsx:4-61 | no text in the table is empty, so `\|\|` falls through only for a missing key |
| Locale.TranslateKnown | src/components/CodingCoach.tsx:72 | for a key of the table, `t` gives the resolved locale's own text |
| Locale.T | src/components/CodingCoach.tsx:72 | `t` gives back the key itself unless the table defines the key, and gives the empty text only for the empty key |
| Locale.TranslateUnknown | src/components/CodingCoach.tsx:72 | for a key missing from the table, `t` gives back the key in any locale |
| Coach.RemoveAll | src/components/CodingCoach.tsx:473 | `replace` with a global pattern never lengthens the text |
| Coach.RemoveAllKeeps | src/components/CodingCoach.tsx:473 | characters where the pattern cannot start are kept unchanged |
| Coach.RemoveAllShortTail | src/components/CodingCoach.tsx:473 | a tail shorter than the pattern is kept unchanged |
| Coach.StripFences | src/components/CodingCoach.tsx:473 | stripping the fences never lengthens the reply and leaves nothing to trim |
| Coach.StripUnfenced | src/components/CodingCoach.tsx:473 | a reply without backquotes is only trimmed |
| Coach.FirstPass | src/components/CodingCoach.tsx:473 | the first `replace` removes the opening `json` fence and its newline, and keeps everything else |
| Coach.SecondPass | src/components/CodingCoach.tsx:473 | the second `replace` removes the closing fence |
| Coach.StripFencedBlock | src/components/CodingCoach.tsx:473 | a JSON body fenced as a Markdown `json` block comes back as the body trimmed |
| Coach.GetScoreColor | src/components/CodingCoach.tsx:503-507 | green exactly from 80, yellow exactly from 60 below 80, red exactly below 60 |
| Coach.ScoreColorMonotone | src/components/CodingCoach.tsx:503-507 | a higher score never gets a lower colour |
| Coach.SummaryColor | src/components/CodingCoach.tsx:359-364 | below 90, green goes with the "good" summary exactly, and "fair" is always yellow |
| Coach.LocalReportColor | src/components/CodingCoach.tsx:503-507 | for a local report, green goes exactly with the "good" summary, and "fair" is yellow |
| Coach.Language | src/components/CodingCoach.tsx:391 | the language is empty without a file, and a non-empty language is the table's label for the file's extension |
| Coach.Outcome | src/components/CodingCoach.tsx:433-497 | the analysis is remote only for a reply; every other outcome yields the local report, and a local analysis is always the local report |
| Coach.Respond | src/components/CodingCoach.tsx:433-497 | the `try` block and its `catch` compute exactly the outcome's analysis |
| Coach.OutcomeCases | src/components/CodingCoach.tsx:433-497 | the parsed reply is kept, unchecked, exactly when there is a reply that parses after stripping; otherwise the local report is used |
| Coach.FencedReplyParsed | src/components/CodingCoach.tsx:471-484 | a fenced JSON reply is parsed from the trimmed text inside the fence |
| Coach.CodingCoach.constructor | src/components/CodingCoach.tsx:71-79 | the cells start empty, not loading and without error; the locale is resolved once |
| Coach.CodingCoach.AnalyzeCode | src/components/CodingCoach.tsx:383-500 | without code: the upload error and nothing else changes; with code: not loading, no error, and the analysis is the parsed reply or the local report for the file's language |
| Coach.CodingCoach.Request | src/components/CodingCoach.tsx:433-497 | the analysis cell receives the outcome's analysis, and a thrown request clears the error |

## Left out

- The rendered page is not modelled: the JSX tree, severity icons, styles and the `useEffect` that injects them.
- The network call is not modelled. The `fetch` to the remote model, the prompt text and the response body become the `RemoteOutcome` value. `RequestFailed` stands for any exception thrown before parsing.
- `console` logging is left out because it has no effect on state.
- `handleFileUpload` is not modelled. It reads a file asynchronously; the model takes the `file` name and `code` cells as given.
- The locale is a constructor parameter. The source reads `navigator.languages` or the build-time `{{APP_LOCALE}}` placeholder, which are outside the program.
- `JSON.parse` is an `Option` oracle. The component accepts whatever it returns without checking its fields.
- `Analysis.Remote` holds that parsed value without looking inside it.
- Strings are sequences of characters. UTF-16 code units, surrogate pairs and the rest of the regular-expression engine are not modelled. Only the seven patterns the analyzer uses are written out.
- `toLowerCase` covers only characters that can lower-case to an ASCII extension: A–Z and the Kelvin sign. Other characters stay unchanged. This is enough for the exact table lookup.
- Lookups use the tables' own entries only. Inherited properties such as `languageMap['constructor']` or `TRANSLATIONS['toString']` are not modelled.
- The inner `catch` that reports "Failed to analyze code" is not modelled. It can never run, because the local analyzer never throws.
- The intermediate `loading = true` state is not modelled. It is visible only while the request is in flight. `AnalyzeCode` states the state at the end.
- The initial summary string is not modelled on its own. It is always overwritten before the report is returned.
- Languages.JsLikeLabels: states the gate for the four JavaScript and TypeScript extensions and for unknown extensions, but not which other labels of the table pass it.
- Heuristic.Score: states the score's range (0 to 85). The exact value is stated by HeuristicProperties.ScoreFromFindings and Heuristic.GenerateMockAnalysis.
