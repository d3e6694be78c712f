/**
  `getLanguageFromExtension`: the language label the analyzer is given for an
  uploaded file, looked up by the lower-cased text after the file name's last dot.
 */
module Languages {
  import opened Wrappers
  import opened Text
  import opened Patterns

  /** The fixed extension table, keyed by lower-case extension (`languageMap[ext]`,
      `None` where the object has no such own property). Every key is a
      non-empty extension without a dot or an upper-case letter, and every
      label is non-empty. */
  function LanguageMap(ext: string): (entry: Option<string>)
    ensures entry.Some? ==> entry.value != ""
    ensures entry.Some? ==> ext != [] && '.' !in ext && forall k | 0 <= k < |ext| :: !('A' <= ext[k] <= 'Z')
  {
    match ext
    case "py" => Some("Python")
    case "js" => Some("JavaScript")
    case "jsx" => Some("React/JavaScript")
    case "ts" => Some("TypeScript")
    case "tsx" => Some("React/TypeScript")
    case "java" => Some("Java")
    case "c" => Some("C")
    case "cpp" => Some("C++")
    case "cc" => Some("C++")
    case "cxx" => Some("C++")
    case "cs" => Some("C#")
    case "rb" => Some("Ruby")
    case "go" => Some("Go")
    case "php" => Some("PHP")
    case "swift" => Some("Swift")
    case "kt" => Some("Kotlin")
    case "rs" => Some("Rust")
    case "r" => Some("R")
    case "scala" => Some("Scala")
    case "sh" => Some("Shell/Bash")
    case "bash" => Some("Bash")
    case "ps1" => Some("PowerShell")
    case "lua" => Some("Lua")
    case "dart" => Some("Dart")
    case "elm" => Some("Elm")
    case "ex" => Some("Elixir")
    case "exs" => Some("Elixir")
    case "erl" => Some("Erlang")
    case "hrl" => Some("Erlang")
    case "fs" => Some("F#")
    case "fsx" => Some("F#")
    case "clj" => Some("Clojure")
    case "cljs" => Some("ClojureScript")
    case "hs" => Some("Haskell")
    case "jl" => Some("Julia")
    case "ml" => Some("OCaml")
    case "nim" => Some("Nim")
    case "pas" => Some("Pascal")
    case "pl" => Some("Perl")
    case "pm" => Some("Perl")
    case "v" => Some("V")
    case "vb" => Some("Visual Basic")
    case "zig" => Some("Zig")
    case _ => None
  }

  /** `filename.split('.').pop()?.toLowerCase() || ''`: splitting always yields a
      last piece, so the extension is the lower-cased text after the last dot,
      or the whole lower-cased name when it has none. */
  function Extension(filename: string): (ext: string)
    ensures '.' !in ext
    ensures '.' !in filename ==> ext == Lower(filename)
  {
    var pieces := Split(filename, '.');
    assert '.' !in filename ==> pieces == [filename];
    SplitPieces(filename, '.');
    var ext := Lower(pieces[|pieces| - 1]);
    assert forall k | 0 <= k < |ext| :: ext[k] != '.';
    ext
  }

  /** `languageMap[ext] || ''`: the table's label for the extension, and empty
      exactly when the extension is not in the table (no label is empty, so
      `|| ''` only replaces a missing entry). */
  function GetLanguageFromExtension(filename: string): (language: string)
    ensures LanguageMap(Extension(filename)).Some? ==> language == LanguageMap(Extension(filename)).value
    ensures language == "" <==> LanguageMap(Extension(filename)).None?
  {
    var ext := Extension(filename);
    match LanguageMap(ext)
    case Some(name) => name
    case None => ""
  }

  /** The last piece of splitting `s + [sep] + e`, where `e` holds no separator, is `e`. */
  lemma {:induction false} SplitLast(s: string, sep: char, e: string)
    requires sep !in e
    ensures var parts := Split(s + [sep] + e, sep); parts[|parts| - 1] == e
    decreases |s|
  {
    var t := s + [sep] + e;
    var k := IndexOf(t, sep);
    if k < |s| {
      assert t[k + 1..] == s[k + 1..] + [sep] + e;
      SplitLast(s[k + 1..], sep, e);
    } else {
      assert t[k + 1..] == e;
      assert IndexOf(e, sep) < 0;
    }
  }

  /** The extension of `base.e` is `e` lower-cased, whatever the base holds. */
  lemma ExtensionOfDotted(base: string, e: string)
    requires '.' !in e
    ensures Extension(base + "." + e) == Lower(e)
  {
    SplitLast(base, '.', e);
  }

  lemma {:induction false} LowerIdempotent(s: string)
    ensures Lower(Lower(s)) == Lower(s)
  {
  }

  /** Lower-casing commutes with taking a slice. */
  lemma LowerSlice(s: string, p: nat, q: nat)
    requires p <= q <= |s|
    ensures Lower(s)[p..q] == Lower(s[p..q])
  {
  }

  /** Every piece lower-cased. */
  function LowerAll(pieces: seq<string>): (lower: seq<string>)
    ensures |lower| == |pieces| && forall k | 0 <= k < |pieces| :: lower[k] == Lower(pieces[k])
  {
    seq(|pieces|, k requires 0 <= k < |pieces| => Lower(pieces[k]))
  }

  lemma LowerAllCons(head: string, tail: seq<string>)
    ensures LowerAll([head] + tail) == [Lower(head)] + LowerAll(tail)
  {
  }

  /** Lower-casing keeps the first dot where it is. */
  lemma LowerFirstDot(s: string, k: nat)
    requires k < |s| && s[k] == '.' && '.' !in s[..k]
    ensures IndexOf(Lower(s), '.') == k
  {
    var l := Lower(s);
    assert l[k] == '.';
    assert '.' !in l[..k] by {
      assert forall j | 0 <= j < k :: l[..k][j] == LowerChar(s[..k][j]) && s[..k][j] != '.';
    }
  }

  /** Splitting and lower-casing commute, because lower-casing keeps dots and only dots. */
  lemma {:induction false} SplitLower(s: string)
    ensures Split(Lower(s), '.') == LowerAll(Split(s, '.'))
    decreases |s|
  {
    var k := IndexOf(s, '.');
    var l := Lower(s);
    if k < 0 {
      assert '.' !in l by { assert forall j | 0 <= j < |s| :: l[j] == LowerChar(s[j]) && s[j] != '.'; }
      assert IndexOf(l, '.') < 0;
    } else {
      LowerFirstDot(s, k);
      LowerSlice(s, 0, k);
      LowerSlice(s, k + 1, |s|);
      SplitLower(s[k + 1..]);
      assert Split(l, '.') == [l[..k]] + Split(l[k + 1..], '.');
      assert l[..k] == Lower(s[..k]) && l[k + 1..] == Lower(s[k + 1..]);
      LowerAllCons(s[..k], Split(s[k + 1..], '.'));
    }
  }

  /** The lookup ignores the case of the file name. */
  lemma ExtensionIgnoresCase(filename: string)
    ensures Extension(Lower(filename)) == Extension(filename)
    ensures GetLanguageFromExtension(Lower(filename)) == GetLanguageFromExtension(filename)
  {
    SplitLower(filename);
    var pieces := Split(filename, '.');
    SplitPieces(filename, '.');
    LowerIdempotent(pieces[|pieces| - 1]);
  }

  /** The JavaScript idiom rule runs for the four JavaScript and TypeScript
      extensions, and not for a file whose extension is not in the table. */
  lemma JsLikeLabels(filename: string)
    ensures Extension(filename) in {"js", "jsx", "ts", "tsx"} ==> IsJsLike(GetLanguageFromExtension(filename))
    ensures LanguageMap(Extension(filename)).None? ==> !IsJsLike(GetLanguageFromExtension(filename))
  {
    var ext := Extension(filename);
    if ext in {"js", "jsx", "ts", "tsx"} {
      JsLabelsAreJsLike();
    } else if LanguageMap(ext).None? {
      assert GetLanguageFromExtension(filename) == "";
      assert !IsJsLike("");
    }
  }

  lemma JsLabelsAreJsLike()
    ensures IsJsLike("JavaScript") && IsJsLike("TypeScript")
    ensures IsJsLike("React/JavaScript") && IsJsLike("React/TypeScript")
  {
    assert MatchesIgnoreCaseAt("JavaScript", "javascript", 0);
    assert MatchesIgnoreCaseAt("TypeScript", "typescript", 0);
    assert MatchesIgnoreCaseAt("React/JavaScript", "react", 0);
    assert MatchesIgnoreCaseAt("React/TypeScript", "react", 0);
  }
}
