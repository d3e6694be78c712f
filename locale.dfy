/**
  The interface texts and how one is chosen: `findMatchingLocale` resolves a
  requested locale to one the table has, and `t` looks a key up in the
  resolved locale, then in en-US, then gives the key itself. Each object
  literal of the table is a sequence of entries in the order it is written.
 */
module Locale {
  import opened Wrappers
  import opened Text

  /** The en-US texts. */
  const EnUs: seq<(string, string)> := [
    ("appTitle", "Coding Coach"),
    ("appDescription", "Upload your code for AI-powered analysis and improvement suggestions"),
    ("uploadCodeFile", "Upload Code File"),
    ("chooseFileOrDrag", "Choose a file or drag it here"),
    ("codePreview", "Code Preview (first 10 lines)"),
    ("analyzeCode", "Analyze Code"),
    ("analyzing", "Analyzing..."),
    ("failedToReadFile", "Failed to read file. Please ensure it's a text file."),
    ("pleaseUploadCodeFirst", "Please upload a code file first"),
    ("overallScore", "Overall Score"),
    ("improvementSuggestions", "Improvement Suggestions"),
    ("suggestion", "Suggestion:"),
    ("evaluationGuidelines", "Evaluation Guidelines"),
    ("descriptiveNaming", "Descriptive naming conventions"),
    ("appropriateFunctionSize", "Appropriate function size (avoid extremes)"),
    ("explicitDependencies", "Explicit dependencies"),
    ("properErrorHandling", "Proper error handling"),
    ("limitedNesting", "Limited nesting (2-3 levels max)"),
    ("clearSideEffects", "Clear side effects"),
    ("noMagicNumbers", "No magic numbers"),
    ("analyzingYourCode", "Analyzing Your Code"),
    ("thisMayTakeAMoment", "This may take a moment..."),
    ("high", "high"),
    ("medium", "medium"),
    ("low", "low")
  ]

  /** The es-ES texts. */
  const EsEs: seq<(string, string)> := [
    ("appTitle", "Entrenador de Código"),
    ("appDescription", "Sube tu código para análisis y sugerencias de mejora con IA"),
    ("uploadCodeFile", "Subir Archivo de Código"),
    ("chooseFileOrDrag", "Elige un archivo o arrástralo aquí"),
    ("codePreview", "Vista previa del código (primeras 10 líneas)"),
    ("analyzeCode", "Analizar Código"),
    ("analyzing", "Analizando..."),
    ("failedToReadFile", "Error al leer el archivo. Asegúrate de que sea un archivo de texto."),
    ("pleaseUploadCodeFirst", "Por favor sube un archivo de código primero"),
    ("overallScore", "Puntuación General"),
    ("improvementSuggestions", "Sugerencias de Mejora"),
    ("suggestion", "Sugerencia:"),
    ("evaluationGuidelines", "Pautas de Evaluación"),
    ("descriptiveNaming", "Convenciones de nomenclatura descriptiva"),
    ("appropriateFunctionSize", "Tamaño apropiado de función (evitar extremos)"),
    ("explicitDependencies", "Dependencias explícitas"),
    ("properErrorHandling", "Manejo adecuado de errores"),
    ("limitedNesting", "Anidamiento limitado (máximo 2-3 niveles)"),
    ("clearSideEffects", "Efectos secundarios claros"),
    ("noMagicNumbers", "Sin números mágicos"),
    ("analyzingYourCode", "Analizando Tu Código"),
    ("thisMayTakeAMoment", "Esto puede tomar un momento..."),
    ("high", "alto"),
    ("medium", "medio"),
    ("low", "bajo")
  ]

  /** `TRANSLATIONS`, in the order `Object.keys` lists it. */
  const Translations: seq<(string, seq<(string, string)>)> := [("en-US", EnUs), ("es-ES", EsEs)]

  /** The keys of an object literal, in order. */
  function Keys<V>(entries: seq<(string, V)>): (keys: seq<string>)
    ensures |keys| == |entries| && forall i | 0 <= i < |entries| :: keys[i] == entries[i].0
  {
    seq(|entries|, i requires 0 <= i < |entries| => entries[i].0)
  }

  /** `object[key]` for an own property: the value of the entry with that key. */
  function Lookup<V>(entries: seq<(string, V)>, key: string): (value: Option<V>)
    ensures value.Some? ==> exists i | 0 <= i < |entries| :: entries[i] == (key, value.value)
    ensures value.None? <==> key !in Keys(entries)
  {
    if entries == [] then None
    else if entries[0].0 == key then Some(entries[0].1)
    else
      assert Keys(entries) == [entries[0].0] + Keys(entries[1..]);
      Lookup(entries[1..], key)
  }

  /** `TRANSLATIONS[locale]?.[key]`. */
  function Translation(locale: string, key: string): (text: Option<string>)
    ensures text.Some? ==> key in Keys(EnUs)
  {
    SameKeys();
    match Lookup(Translations, locale)
    case Some(table) => Lookup(table, key)
    case None => None
  }

  /** The first of `keys` that starts with `prefix` (`Object.keys(...).find`). */
  function FirstWithPrefix(keys: seq<string>, prefix: string): (found: Option<string>)
    ensures found.Some? ==> found.value in keys && prefix <= found.value
    ensures found.None? ==> forall i | 0 <= i < |keys| :: !(prefix <= keys[i])
    ensures found.Some? ==>
      exists i | 0 <= i < |keys| :: keys[i] == found.value && forall j | 0 <= j < i :: !(prefix <= keys[j])
  {
    if keys == [] then None
    else if prefix <= keys[0] then Some(keys[0])
    else
      var found := FirstWithPrefix(keys[1..], prefix);
      if found.Some? then
        var i :| 0 <= i < |keys| - 1 && keys[1..][i] == found.value && forall j | 0 <= j < i :: !(prefix <= keys[1..][j]);
        assert keys[i + 1] == found.value && forall j | 0 <= j < i + 1 :: !(prefix <= keys[j]) by {
          assert forall j | 1 <= j < i + 1 :: keys[j] == keys[1..][j - 1];
        }
        found
      else found
  }

  /** `findMatchingLocale(locale)`: the locale itself when the table has it,
      else the first locale of the same language, else en-US. */
  function FindMatchingLocale(requested: string): (locale: string)
    ensures locale in Keys(Translations)
  {
    if requested in Keys(Translations) then requested
    else
      var lang := Split(requested, '-')[0];
      match FirstWithPrefix(Keys(Translations), lang + "-")
      case Some(key) => key
      case None => "en-US"
  }

  /** The resolved locale is the requested one when the table has it; when it
      is not, it shares the requested locale's language tag, or it is en-US
      and no locale of the table has that language. */
  lemma MatchingLocaleChoice(requested: string)
    ensures requested in Keys(Translations) ==> FindMatchingLocale(requested) == requested
    ensures var lang := Split(requested, '-')[0]; var keys := Keys(Translations);
      requested !in keys ==>
        || lang + "-" <= FindMatchingLocale(requested)
        || (FindMatchingLocale(requested) == "en-US" && forall i | 0 <= i < |keys| :: !(lang + "-" <= keys[i]))
  {
  }

  /** Resolving an already resolved locale changes nothing. */
  lemma MatchingLocaleIdempotent(requested: string)
    ensures FindMatchingLocale(FindMatchingLocale(requested)) == FindMatchingLocale(requested)
  {
    var locale := FindMatchingLocale(requested);
    assert locale in Keys(Translations);
    assert FindMatchingLocale(locale) == locale;
  }

  /** Every Spanish locale, whatever its region, resolves to es-ES. */
  lemma SpanishVariants(region: string)
    ensures FindMatchingLocale("es-" + region) == "es-ES"
  {
    IndexOfAfterFree("es", '-', region);
    var requested := "es-" + region;
    assert requested == "es" + ['-'] + region;
    assert Split(requested, '-')[0] == "es";
    assert "es" + "-" == "es-";
    var keys := Keys(Translations);
    assert keys == ["en-US", "es-ES"];
    assert !("es-" <= "en-US") by { assert "en-US"[1] != "es-"[1]; }
    assert keys[1..] == ["es-ES"];
    assert FirstWithPrefix(keys, "es-") == Some("es-ES");
  }

  /** A language tag without `-` that prefixes `k` before a `-` is the part of `k` before its first `-`. */
  lemma TagPrefix(lang: string, k: string, d: nat)
    requires '-' !in lang
    requires d < |k| && k[d] == '-' && '-' !in k[..d]
    ensures lang + "-" <= k ==> lang == k[..d]
  {
    var p := lang + "-";
    if p <= k {
      assert k[|lang|] == '-' by { assert p[|lang|] == '-'; }
      assert |lang| <= d by { assert forall j | 0 <= j < |lang| :: p[j] == lang[j]; }
      assert |lang| >= d by { assert forall j | 0 <= j < d :: k[..d][j] == k[j]; }
      assert k[..d] == p[..d];
    }
  }

  /** A locale whose language the table does not have resolves to en-US. */
  lemma UnknownLanguage(lang: string, region: string)
    requires '-' !in lang
    requires lang != "en" && lang != "es"
    ensures FindMatchingLocale(lang + "-" + region) == "en-US"
  {
    var requested := lang + "-" + region;
    IndexOfAfterFree(lang, '-', region);
    assert requested == lang + ['-'] + region;
    assert Split(requested, '-')[0] == lang;
    assert Keys(Translations) == ["en-US", "es-ES"];
    TagPrefix(lang, "en-US", 2);
    TagPrefix(lang, "es-ES", 2);
    assert "en-US"[..2] == "en" && "es-ES"[..2] == "es";
    TagPrefix(lang, requested, |lang|);
    assert requested[..|lang|] == lang;
  }

  /** `t(key)`: the resolved locale's text, else the en-US text, else the key;
      an empty text falls through like a missing one. */
  function T(locale: string, key: string): (text: string)
    ensures text == key || key in Keys(EnUs)
    ensures text == "" ==> key == ""
  {
    var own := Translation(locale, key);
    if own.Some? && own.value != "" then own.value
    else
      var fallback := Translation("en-US", key);
      if fallback.Some? && fallback.value != "" then fallback.value else key
  }

  /** Both locales define the same keys, in the same order. */
  lemma SameKeys()
    ensures Keys(EnUs) == Keys(EsEs)
  {
  }

  /** No text is empty, so `||` falls through only for a missing key. */
  lemma TextsNonEmpty()
    ensures forall i | 0 <= i < |EnUs| :: EnUs[i].1 != ""
    ensures forall i | 0 <= i < |EsEs| :: EsEs[i].1 != ""
  {
  }

  /** For a key the table defines, `t` gives the resolved locale's own text. */
  lemma TranslateKnown(requested: string, key: string)
    requires key in Keys(EnUs)
    ensures var locale := FindMatchingLocale(requested);
      Translation(locale, key).Some? && T(locale, key) == Translation(locale, key).value
  {
    var locale := FindMatchingLocale(requested);
    SameKeys();
    TextsNonEmpty();
    assert Keys(Translations) == ["en-US", "es-ES"];
    assert Translations[0] == ("en-US", EnUs) && Translations[1] == ("es-ES", EsEs);
    var table := Lookup(Translations, locale).value;
    assert table == EnUs || table == EsEs;
  }

  /** For a key the table does not define, `t` gives the key back, in any locale. */
  lemma TranslateUnknown(locale: string, key: string)
    requires key !in Keys(EnUs)
    ensures T(locale, key) == key
  {
  }
}
