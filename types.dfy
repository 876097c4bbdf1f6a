/** The shared types of src/types.rs: providers, languages and the records the
    detectors and transformers return. */
module Types {
  import opened Wrappers
  import opened Strings
  import opened Paths

  datatype Provider = OpenAI | Anthropic | Cohere | HuggingFace | Gemini | Groq

  /** The providers the live detectors and the TypeScript transformer have a
      query for; Gemini and Groq have none there. */
  predicate HasLiveQuery(p: Provider) {
    p.OpenAI? || p.Anthropic? || p.Cohere? || p.HuggingFace?
  }

  /** `Provider::as_str`: a lower-case name, one `parse` accepts. */
  function ProviderAsStr(p: Provider): (r: string)
    ensures r in ProviderNames && ToLower(r) == r
  {
    match p
    case OpenAI => "openai"
    case Anthropic => "anthropic"
    case Cohere => "cohere"
    case HuggingFace => "huggingface"
    case Gemini => "gemini"
    case Groq => "groq"
  }

  /** `Provider::parse`: case-insensitive, with the aliases `hf` and `google`. */
  function ParseProvider(s: string): (r: Option<Provider>)
    ensures r.Some? <==> ToLower(s) in ProviderNames
  {
    var t := ToLower(s);
    if t == "openai" then Some(OpenAI)
    else if t == "anthropic" then Some(Anthropic)
    else if t == "cohere" then Some(Cohere)
    else if t == "huggingface" || t == "hf" then Some(HuggingFace)
    else if t == "gemini" || t == "google" then Some(Gemini)
    else if t == "groq" then Some(Groq)
    else None
  }

  /** Every name `ParseProvider` accepts, in lower case. */
  const ProviderNames: set<string> :=
    {"openai", "anthropic", "cohere", "huggingface", "hf", "gemini", "google", "groq"}

  /** `Provider::class_name` */
  function ClassName(p: Provider): string {
    match p
    case OpenAI => "OpenAI"
    case Anthropic => "Anthropic"
    case Cohere => "CohereClient"
    case HuggingFace => "HfInference"
    case Gemini => "Client"
    case Groq => "Groq"
  }

  /** `Provider::base_url_param`: `baseUrl` for HuggingFace's SDK only. */
  function BaseUrlParam(p: Provider): (r: string)
    ensures r in {"baseUrl", "baseURL"} && (r == "baseUrl" <==> p == HuggingFace)
  {
    match p
    case HuggingFace => "baseUrl"
    case _ => "baseURL"
  }

  /** `Provider::api_key_param`: `accessToken` for HuggingFace's SDK only. */
  function ApiKeyParam(p: Provider): (r: string)
    ensures r in {"accessToken", "apiKey"} && (r == "accessToken" <==> p == HuggingFace)
  {
    match p
    case HuggingFace => "accessToken"
    case _ => "apiKey"
  }

  datatype Language = TypeScript | JavaScript | Python

  /** `Language::from_extension`: the five extensions of the supported languages. */
  function LanguageFromExtension(ext: string): (r: Option<Language>)
    ensures r.Some? <==> ext in {"ts", "tsx", "js", "jsx", "py"}
  {
    if ext == "ts" || ext == "tsx" then Some(TypeScript)
    else if ext == "js" || ext == "jsx" then Some(JavaScript)
    else if ext == "py" then Some(Python)
    else None
  }

  /** `Language::as_str`: a lower-case name. */
  function LanguageAsStr(l: Language): (r: string)
    ensures ToLower(r) == r && r != ""
  {
    match l
    case TypeScript => "typescript"
    case JavaScript => "javascript"
    case Python => "python"
  }

  /** The language a file's extension selects (`Language::from_extension` on
      `path.extension()`); a path without an extension counts as having the
      extension "". Only a path with one of the five extensions has a language. */
  function LanguageOfPath(path: string): (r: Option<Language>)
    ensures Extension(path).None? ==> r.None?
    ensures r.Some? <==> Extension(path).Some? && Extension(path).value in {"ts", "tsx", "js", "jsx", "py"}
  {
    LanguageFromExtension(Extension(path).GetOr(""))
  }

  datatype DetectionInstance = DetectionInstance(
    filePath: string,
    line: nat,
    column: nat,
    provider: Provider,
    language: Language,
    hasBaseUrl: bool,
    currentBaseUrl: Option<string>)

  datatype DetectionResult = DetectionResult(instances: seq<DetectionInstance>)

  /** `DetectionResult::new` */
  function NewDetectionResult(): (r: DetectionResult)
    ensures |r.instances| == 0
  {
    DetectionResult([])
  }

  datatype TransformResult = TransformResult(
    filePath: string,
    success: bool,
    modified: bool,
    error: Option<string>)

  /** Lower-casing an already lower-case name changes nothing. */
  lemma LowerIdempotent(s: string)
    ensures ToLower(ToLower(s)) == ToLower(s)
  {
  }

  /** `parse` undoes `as_str`. */
  lemma ParseAsStr(p: Provider)
    ensures ParseProvider(ProviderAsStr(p)) == Some(p)
  {
    var n := ProviderAsStr(p);
    assert ToLower(n) == n;
  }

  /** `as_str` gives each provider its own name. */
  lemma ProviderAsStrInjective(p: Provider, q: Provider)
    requires ProviderAsStr(p) == ProviderAsStr(q)
    ensures p == q
  {
    ParseAsStr(p);
    ParseAsStr(q);
  }

  /** `parse` ignores case: it sees only the lower-cased text. */
  lemma ParseIgnoresCase(s: string)
    ensures ParseProvider(s) == ParseProvider(ToLower(s))
  {
    LowerIdempotent(s);
  }

  /** `parse` succeeds exactly on the listed names, in any case, and otherwise gives None. */
  lemma ParseAcceptsExactly(s: string)
    ensures ParseProvider(s).Some? <==> ToLower(s) in ProviderNames
    ensures ParseProvider(s) == Some(HuggingFace) <==> ToLower(s) in {"huggingface", "hf"}
    ensures ParseProvider(s) == Some(Gemini) <==> ToLower(s) in {"gemini", "google"}
  {
  }

  /** Only HuggingFace's SDK spells its parameters differently. */
  lemma ParamNames(p: Provider)
    ensures BaseUrlParam(p) == (if p == HuggingFace then "baseUrl" else "baseURL")
    ensures ApiKeyParam(p) == (if p == HuggingFace then "accessToken" else "apiKey")
    ensures BaseUrlParam(p) != ApiKeyParam(p)
  {
  }

  /** `from_extension` maps exactly ts, tsx, js, jsx and py (case-sensitively). */
  lemma FromExtensionExactly(ext: string)
    ensures LanguageFromExtension(ext) == Some(TypeScript) <==> ext in {"ts", "tsx"}
    ensures LanguageFromExtension(ext) == Some(JavaScript) <==> ext in {"js", "jsx"}
    ensures LanguageFromExtension(ext) == Some(Python) <==> ext == "py"
    ensures LanguageFromExtension(ext).None? <==> ext !in {"ts", "tsx", "js", "jsx", "py"}
  {
  }

  /** `Provider::class_name` gives each provider its own class name. */
  lemma ClassNameInjective(p: Provider, q: Provider)
    requires ClassName(p) == ClassName(q)
    ensures p == q
  {
  }

  /** `Language::as_str` gives each language its own name. */
  lemma LanguageAsStrInjective(a: Language, b: Language)
    requires LanguageAsStr(a) == LanguageAsStr(b)
    ensures a == b
  {
  }
}
