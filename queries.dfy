/** The shared query catalog of src/detector/queries.rs, as tables of call-site
    patterns. The module is a catalog only: the detectors and the TypeScript
    transformer hold their own queries, and the Python transformer's own table
    equals the transform catalog here. */
module Queries {
  import opened Wrappers
  import opened Syntax
  import opened Types

  /** The SDK class a TypeScript program constructs for each provider. */
  function TypeScriptConstructor(p: Provider): string {
    match p
    case OpenAI => "OpenAI"
    case Anthropic => "Anthropic"
    case Cohere => "CohereClient"
    case HuggingFace => "HfInference"
    case Gemini => "GoogleGenAI"
    case Groq => "Groq"
  }

  /** The SDK class a Python program calls for each provider. */
  function PythonClass(p: Provider): string {
    match p
    case OpenAI => "OpenAI"
    case Anthropic => "Anthropic"
    case Cohere => "CohereClient"
    case HuggingFace => "InferenceClient"
    case Gemini => "Client"
    case Groq => "Groq"
  }

  /** The class name the commands print for a provider is the SDK class a program
      constructs: the TypeScript constructor for every provider but Gemini, whose
      printed name is the Python class `Client`. */
  lemma ClassNameIsSdkClass(p: Provider)
    ensures ClassName(p) == TypeScriptConstructor(p) <==> p != Gemini
    ensures ClassName(p) == PythonClass(p) <==> p != HuggingFace
  {
  }

  /** `get_typescript_query`: `new C(...)` with the identifier constructor `C`. */
  function TypeScriptQuery(p: Provider): (q: Query)
    ensures q.grammar == TypeScriptGrammar && q.siteCapture == "new_expr"
  {
    Query(TypeScriptGrammar, [NewIdent(TypeScriptConstructor(p))], "new_expr")
  }

  /** `get_python_detection_query`: a direct call `C(...)` or an attribute call
      `m.C(...)`, where only Gemini also fixes the object to `genai`. */
  function PythonDetectionQuery(p: Provider): (q: Query)
    ensures q.grammar == PythonGrammar && q.siteCapture == "call_expr"
  {
    var c := PythonClass(p);
    var receiver := if p == Gemini then Some("genai") else None;
    Query(PythonGrammar, [CallIdent(c), CallAttr(receiver, c)], "call_expr")
  }

  /** `get_python_transform_query`: a direct call only, except for Gemini, whose only
      pattern is the attribute call `genai.Client(...)`. */
  function PythonTransformQuery(p: Provider): (q: Query)
    ensures q.grammar == PythonGrammar && q.siteCapture == "call_expr"
  {
    if p == Gemini then Query(PythonGrammar, [CallAttr(Some("genai"), "Client")], "call_expr")
    else Query(PythonGrammar, [CallIdent(PythonClass(p))], "call_expr")
  }

  /** The TypeScript query of every provider matches exactly `new C(...)` with its
      class as the identifier constructor. */
  lemma TypeScriptQueryMatches(p: Provider, s: CallShape)
    ensures QueryMatches(TypeScriptQuery(p), s) <==> s == New(Ident(TypeScriptConstructor(p)))
  {
    if s == New(Ident(TypeScriptConstructor(p))) {
      assert PatternMatches(TypeScriptQuery(p).patterns[0], s);
    }
  }

  /** The detection query matches the direct call and the attribute call on the class
      name; the attribute's object is unconstrained except for Gemini (`genai`). */
  lemma PythonDetectionMatches(p: Provider, s: CallShape)
    ensures QueryMatches(PythonDetectionQuery(p), s) <==>
      s == Call(Ident(PythonClass(p))) ||
      (s.Call? && s.callee.Attr? && s.callee.attribute == PythonClass(p) &&
       (p == Gemini ==> s.callee.receiver == Some("genai")))
  {
    var q := PythonDetectionQuery(p);
    if s == Call(Ident(PythonClass(p))) {
      assert PatternMatches(q.patterns[0], s);
    }
    if s.Call? && s.callee.Attr? && s.callee.attribute == PythonClass(p) &&
       (p == Gemini ==> s.callee.receiver == Some("genai")) {
      assert PatternMatches(q.patterns[1], s);
    }
  }

  /** The transform query matches exactly the direct call, or for Gemini exactly
      `genai.Client(...)`. */
  lemma PythonTransformMatches(p: Provider, s: CallShape)
    ensures QueryMatches(PythonTransformQuery(p), s) <==>
      if p == Gemini then s == Call(Attr(Some("genai"), "Client"))
      else s == Call(Ident(PythonClass(p)))
  {
    var q := PythonTransformQuery(p);
    if (p == Gemini && s == Call(Attr(Some("genai"), "Client"))) ||
       (p != Gemini && s == Call(Ident(PythonClass(p)))) {
      assert PatternMatches(q.patterns[0], s);
    }
  }

  /** Every call site the transform catalog would rewrite, the detection catalog
      reports for the same provider. */
  lemma TransformSitesAreDetected(p: Provider, s: CallShape)
    requires QueryMatches(PythonTransformQuery(p), s)
    ensures QueryMatches(PythonDetectionQuery(p), s)
  {
    PythonTransformMatches(p, s);
    PythonDetectionMatches(p, s);
  }

  /** The detection catalog also reports the module-qualified call `openai.OpenAI()`,
      which the transform catalog does not rewrite. */
  lemma QualifiedCallDetectedNotTransformed()
    ensures QueryMatches(PythonDetectionQuery(OpenAI), Call(Attr(Some("openai"), "OpenAI")))
    ensures !QueryMatches(PythonTransformQuery(OpenAI), Call(Attr(Some("openai"), "OpenAI")))
  {
    PythonDetectionMatches(OpenAI, Call(Attr(Some("openai"), "OpenAI")));
    PythonTransformMatches(OpenAI, Call(Attr(Some("openai"), "OpenAI")));
  }

  /** The Gemini detection query does not accept `Client` on another module. */
  lemma GeminiNeedsGenai()
    ensures !QueryMatches(PythonDetectionQuery(Gemini), Call(Attr(Some("google"), "Client")))
    ensures QueryMatches(PythonDetectionQuery(Gemini), Call(Ident("Client")))
  {
    PythonDetectionMatches(Gemini, Call(Attr(Some("google"), "Client")));
    PythonDetectionMatches(Gemini, Call(Ident("Client")));
  }

  lemma PythonClassInjective(p: Provider, q: Provider)
    requires PythonClass(p) == PythonClass(q)
    ensures p == q
  {
  }

  /** No call site is claimed by the queries of two different providers, in either
      catalog or language. */
  lemma ProvidersDisjoint(p: Provider, q: Provider, s: CallShape)
    requires p != q
    ensures !(QueryMatches(PythonDetectionQuery(p), s) && QueryMatches(PythonDetectionQuery(q), s))
    ensures !(QueryMatches(PythonTransformQuery(p), s) && QueryMatches(PythonTransformQuery(q), s))
    ensures !(QueryMatches(TypeScriptQuery(p), s) && QueryMatches(TypeScriptQuery(q), s))
  {
    PythonDetectionMatches(p, s);
    PythonDetectionMatches(q, s);
    PythonTransformMatches(p, s);
    PythonTransformMatches(q, s);
    TypeScriptQueryMatches(p, s);
    TypeScriptQueryMatches(q, s);
  }
}
