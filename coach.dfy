/**
  The `CodingCoach` component's analysis step. Its state cells (`file`,
  `code`, `analysis`, `loading`, `error`) are the fields of a class, and
  `analyzeCode` is a method on them. What the remote service does is given
  as a `RemoteOutcome`, and `JSON.parse` as a function that may fail.
 */
module Coach {
  import opened Wrappers
  import opened Text
  import opened Findings
  import opened Heuristic
  import opened Languages
  import opened Locale

  /** How the request to the remote model ended, as far as `analyzeCode` can tell. */
  datatype RemoteOutcome =
    | NoApiKey            // no key configured: the local analyzer runs directly
    | RequestFailed       // `fetch` or `response.json()` threw
    | HttpNotOk           // the status was not ok
    | MissingCandidates   // no `candidates[0].content`
    | Reply(text: string) // `content.parts?.[0]?.text ?? ''`

  /** What the `analysis` cell holds: the local report, or the parsed reply as it came. */
  datatype Analysis<J> = Local(report: Report) | Remote(value: J)

  // ---------------------------------------------------------------------------
  // Fence stripping
  // ---------------------------------------------------------------------------

  /** `s.replace(/<pat>\n?/g, "")` from position p: every leftmost occurrence
      of `pat`, with the newline right after it if there is one, is removed. */
  function RemoveAll(s: string, pat: string, p: nat): (r: string)
    requires |pat| > 0 && p <= |s|
    ensures |r| <= |s| - p
    decreases |s| - p
  {
    if p == |s| then []
    else if MatchesAt(s, pat, p) then
      var e := p + |pat|;
      RemoveAll(s, pat, if e < |s| && s[e] == '\n' then e + 1 else e)
    else [s[p]] + RemoveAll(s, pat, p + 1)
  }

  /** The reply with its Markdown code fences removed: every "```json" and
      then every remaining "```", each with the newline right after it, is
      deleted, and the white space around what is left is trimmed. The result
      is no longer than the reply and has nothing left to trim. */
  function StripFences(raw: string): (text: string)
    ensures |text| <= |raw|
    ensures Trim(text) == text
  {
    var unfenced := RemoveAll(RemoveAll(raw, "```json", 0), "```", 0);
    TrimIdempotent(unfenced);
    Trim(unfenced)
  }

  /** One character that does not start `pat` is kept. */
  lemma RemoveAllStep(s: string, pat: string, p: nat)
    requires |pat| > 0 && p < |s| && s[p] != pat[0]
    ensures RemoveAll(s, pat, p) == [s[p]] + RemoveAll(s, pat, p + 1)
  {
    assert !MatchesAt(s, pat, p) by {
      if p + |pat| <= |s| { assert s[p..p + |pat|][0] == s[p]; }
    }
  }

  lemma SliceCons(s: string, p: nat, q: nat)
    requires p < q <= |s|
    ensures s[p..q] == [s[p]] + s[p + 1..q]
  {
  }

  lemma SliceJoin(s: string, p: nat, q: nat)
    requires p <= q <= |s|
    ensures s[p..q] + s[q..] == s[p..]
  {
  }

  /** Where no character starts `pat`, the characters are kept as they are. */
  lemma {:induction false} RemoveAllKeeps(s: string, pat: string, p: nat, q: nat)
    requires |pat| > 0 && p <= q <= |s|
    requires forall k | p <= k < q :: s[k] != pat[0]
    ensures RemoveAll(s, pat, p) == s[p..q] + RemoveAll(s, pat, q)
    decreases q - p
  {
    if p < q {
      RemoveAllStep(s, pat, p);
      RemoveAllKeeps(s, pat, p + 1, q);
      SliceCons(s, p, q);
    }
  }

  /** A tail shorter than `pat` is kept as it is. */
  lemma {:induction false} RemoveAllShortTail(s: string, pat: string, p: nat)
    requires |pat| > 0 && p <= |s| && |s| - p < |pat|
    ensures RemoveAll(s, pat, p) == s[p..]
    decreases |s| - p
  {
    if p < |s| {
      RemoveAllShortTail(s, pat, p + 1);
      assert s[p..] == [s[p]] + s[p + 1..];
    }
  }

  /** A reply without backquotes only loses its surrounding white space. */
  lemma StripUnfenced(raw: string)
    requires '`' !in raw
    ensures StripFences(raw) == Trim(raw)
  {
    assert "```json"[0] == '`' && "```"[0] == '`';
    RemoveAllKeeps(raw, "```json", 0, |raw|);
    assert raw[0..|raw|] == raw;
    var once := RemoveAll(raw, "```json", 0);
    assert once == raw;
    RemoveAllKeeps(raw, "```", 0, |raw|);
    assert RemoveAll(once, "```", 0) == raw;
  }

  /** The opening fence and the newline after it are removed, and the rest,
      whose only backquotes are a closing fence too short for `json`, is kept. */
  lemma FirstPass(body: string)
    requires '`' !in body
    ensures RemoveAll("```json\n" + body + "\n```", "```json", 0) == body + "\n```"
  {
    var rest := body + "\n```";
    var raw := "```json\n" + rest;
    assert raw == "```json\n" + body + "\n```";
    assert raw[..7] == "```json" && raw[7] == '\n' && raw[8..] == rest;
    assert MatchesAt(raw, "```json", 0);
    var n := |body|;
    assert forall k | 8 <= k < n + 9 :: raw[k] != '`' by {
      assert forall k | 8 <= k < n + 8 :: raw[k] == body[k - 8];
    }
    RemoveAllKeeps(raw, "```json", 8, n + 9);
    RemoveAllShortTail(raw, "```json", n + 9);
    SliceJoin(raw, 8, n + 9);
  }

  /** The closing fence is removed. */
  lemma SecondPass(body: string)
    requires '`' !in body
    ensures RemoveAll(body + "\n```", "```", 0) == body + "\n"
  {
    var head := body + "\n";
    var once := head + "```";
    assert once == body + "\n```";
    var n := |head|;
    assert once[..n] == head && once[n..] == "```";
    assert forall k | 0 <= k < n :: once[k] != '`' by {
      assert forall k | 0 <= k < n - 1 :: once[k] == body[k];
    }
    RemoveAllKeeps(once, "```", 0, n);
    assert MatchesAt(once, "```", n);
    assert RemoveAll(once, "```", n) == [];
  }

  /** A JSON body without backquotes, fenced as a Markdown `json` block,
      comes back trimmed. */
  lemma StripFencedBlock(body: string)
    requires '`' !in body
    ensures StripFences("```json\n" + body + "\n```") == Trim(body)
  {
    FirstPass(body);
    SecondPass(body);
    TrimAppendWhitespace(body, '\n');
  }

  // ---------------------------------------------------------------------------
  // The score's colour
  // ---------------------------------------------------------------------------

  const Green := "text-green-400"
  const Yellow := "text-yellow-400"
  const Red := "text-red-400"

  /** `getScoreColor(score)`: green from 80, yellow from 60, red below. */
  function GetScoreColor(score: int): (color: string)
    ensures color == Green <==> score >= 80
    ensures color == Yellow <==> 60 <= score < 80
    ensures color == Red <==> score < 60
  {
    if score >= 80 then Green else if score >= 60 then Yellow else Red
  }

  /** Red, yellow, green in rising order. */
  function ColorRank(color: string): nat {
    if color == Green then 2 else if color == Yellow then 1 else 0
  }

  /** A higher score never gets a lower colour. */
  lemma ScoreColorMonotone(a: int, b: int)
    requires a <= b
    ensures ColorRank(GetScoreColor(a)) <= ColorRank(GetScoreColor(b))
  {
  }

  /** For the local report, green goes with the "good" summary exactly, and a
      "fair" summary is always yellow. */
  lemma LocalReportColor(code: string, language: string)
    ensures var r := Analyze(code, language);
      && (GetScoreColor(r.score) == Green <==> r.summary == GoodSummary)
      && (r.summary == FairSummary ==> GetScoreColor(r.score) == Yellow)
  {
    SummaryColor(Analyze(code, language).score);
  }

  /** Below 90 the "good" summary goes with green exactly, and "fair" with yellow. */
  lemma SummaryColor(score: int)
    requires score < 90
    ensures GetScoreColor(score) == Green <==> Summary(score) == GoodSummary
    ensures Summary(score) == FairSummary ==> GetScoreColor(score) == Yellow
  {
  }

  // ---------------------------------------------------------------------------
  // analyzeCode
  // ---------------------------------------------------------------------------

  /** `file ? getLanguageFromExtension(file.name) : ''`: the table's label for
      the file's extension, and empty without a file or for an unknown one. */
  function Language(fileName: Option<string>): (language: string)
    ensures fileName.None? ==> language == ""
    ensures language != "" ==> fileName.Some? && LanguageMap(Extension(fileName.value)) == Some(language)
  {
    if fileName.Some? then GetLanguageFromExtension(fileName.value) else ""
  }

  /** What `analyzeCode` leaves in the `analysis` cell when there is code: the
      parsed reply if there is one that parses, and otherwise the local report
      for the file's language. */
  function Outcome<J>(code: string, language: string, outcome: RemoteOutcome,
                      parse: string -> Option<J>): (a: Analysis<J>)
    ensures a.Remote? ==> outcome.Reply?
    ensures !outcome.Reply? ==> a == Local(Analyze(code, language))
    ensures a.Local? ==> a.report == Analyze(code, language)
  {
    var local := Local(Analyze(code, language));
    match outcome
    case Reply(raw) => (match parse(StripFences(raw)) case Some(j) => Remote(j) case None => local)
    case _ => local
  }

  /** The request failures that reach the outer `catch`. */
  predicate Throws(outcome: RemoteOutcome) {
    outcome.RequestFailed? || outcome.HttpNotOk? || outcome.MissingCandidates?
  }

  /** Every failure falls back to the local analyzer, whose report never scores
      above 85; a reply that parses is kept as it is, unchecked. */
  lemma OutcomeCases<J>(code: string, language: string, outcome: RemoteOutcome,
                        parse: string -> Option<J>)
    ensures var a := Outcome(code, language, outcome, parse);
      && (a.Remote? <==> outcome.Reply? && parse(StripFences(outcome.text)).Some?)
      && (a.Remote? ==> a.value == parse(StripFences(outcome.text)).value)
      && (a.Local? ==> a.report == Analyze(code, language) && a.report.score <= Baseline)
  {
  }

  /** A fenced JSON reply is parsed from the text inside the fence. */
  lemma FencedReplyParsed<J>(code: string, language: string, body: string,
                             parse: string -> Option<J>)
    requires '`' !in body
    ensures Outcome(code, language, Reply("```json\n" + body + "\n```"), parse)
      == (match parse(Trim(body)) case Some(j) => Remote(j) case None => Local(Analyze(code, language)))
  {
    StripFencedBlock(body);
  }

  /** The `try` block of `analyzeCode` and its `catch`, as a value: the local
      analyzer when there is no key, the parsed reply or, when it does not
      parse, the local analyzer; a request that throws falls back to the
      local analyzer. */
  method Respond<J>(code: string, language: string, outcome: RemoteOutcome,
                    parse: string -> Option<J>) returns (result: Analysis<J>)
    ensures result == Outcome(code, language, outcome, parse)
  {
    match outcome {
      case NoApiKey =>
        var mock := GenerateMockAnalysis(code, language);
        result := Local(mock);
      case Reply(raw) =>
        var text := StripFences(raw);
        match parse(text) {
          case Some(parsed) =>
            result := Remote(parsed);
          case None =>
            var mock := GenerateMockAnalysis(code, language);
            result := Local(mock);
        }
      case _ =>
        var mock := GenerateMockAnalysis(code, language);
        result := Local(mock);
    }
  }

  /** The component's state cells. `file` keeps the uploaded file's name,
      the only part of it `analyzeCode` reads. */
  class CodingCoach<J> {
    var file: Option<string>
    var code: string
    var analysis: Option<Analysis<J>>
    var loading: bool
    var error: string
    /** The locale `t` uses, resolved once when the module loads. */
    const locale: string

    /** The initial state of the cells. */
    constructor(requestedLocale: string)
      ensures file == None && code == "" && analysis == None && !loading && error == ""
      ensures locale == FindMatchingLocale(requestedLocale)
    {
      file := None;
      code := "";
      analysis := None;
      loading := false;
      error := "";
      locale := FindMatchingLocale(requestedLocale);
    }

    /** `analyzeCode()`. Without code it only reports the missing upload. With
        code it ends not loading and without an error, holding either the
        parsed reply or the local report. */
    method AnalyzeCode(outcome: RemoteOutcome, parse: string -> Option<J>)
      modifies this
      ensures file == old(file) && code == old(code)
      ensures old(code) == "" ==>
        && error == T(locale, "pleaseUploadCodeFirst")
        && analysis == old(analysis) && loading == old(loading)
      ensures old(code) != "" ==>
        && !loading && error == ""
        && analysis == Some(Outcome(code, Language(file), outcome, parse))
    {
      if code == "" {
        error := T(locale, "pleaseUploadCodeFirst");
        return;
      }
      loading := true;
      error := "";
      var language := Language(file);
      Request(language, outcome, parse);
      assert analysis == Some(Outcome(code, Language(file), outcome, parse));
      loading := false;
    }

    /** The `try` block of `analyzeCode` and its `catch` as they act on the
        cells: the result of `Respond` goes into `analysis`, and a request that
        throws clears the error. */
    method Request(language: string, outcome: RemoteOutcome, parse: string -> Option<J>)
      modifies this
      ensures file == old(file) && code == old(code) && loading == old(loading)
      ensures analysis == Some(Outcome(code, language, outcome, parse))
      ensures error == if Throws(outcome) then "" else old(error)
    {
      var result := Respond(code, language, outcome, parse);
      if Throws(outcome) {
        error := "";
      }
      analysis := Some(result);
    }
  }
}
