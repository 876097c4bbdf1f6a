/** `PythonDetector` of src/detector/python.rs: reports every direct call of a
    provider's SDK class, with a redacted flag saying whether the call already sets
    `base_url`. It runs its own copy of the loop of `detect_in_file_generic`. */
module PythonDetector {
  import opened Wrappers
  import opened Strings
  import opened Errors
  import opened Types
  import opened Syntax
  import DetectorCore
  import PythonTransformer

  /** The class each query names: the detector looks for `InferenceClient`, not the
      `HfInference` of `Provider::class_name`, for HuggingFace. */
  function DetectedClass(p: Provider): string
    requires HasLiveQuery(p)
  {
    match p
    case OpenAI => "OpenAI"
    case Anthropic => "Anthropic"
    case Cohere => "CohereClient"
    case HuggingFace => "InferenceClient"
  }

  /** `get_query_for_provider`: a direct call `C(...)` of the class only. */
  function QueryForProvider(p: Provider): (q: Query)
    requires HasLiveQuery(p)
    ensures q.grammar == PythonGrammar && q.siteCapture == "call_expr" && |q.patterns| == 1
  {
    match p
    case OpenAI => Query(PythonGrammar, [CallIdent("OpenAI")], "call_expr")
    case Anthropic => Query(PythonGrammar, [CallIdent("Anthropic")], "call_expr")
    case Cohere => Query(PythonGrammar, [CallIdent("CohereClient")], "call_expr")
    case HuggingFace => Query(PythonGrammar, [CallIdent("InferenceClient")], "call_expr")
  }

  /** `check_has_base_url`: presence of `base_url=` or `base_url =` in the argument
      text, reported with a placeholder in place of the configured value. */
  function CheckHasBaseUrl(argsText: string, p: Provider): (r: (bool, Option<string>))
    ensures r.1 == if r.0 then Some("(configured)") else None
  {
    var hasBaseUrl := Contains(argsText, "base_url=") || Contains(argsText, "base_url =");
    (hasBaseUrl, if hasBaseUrl then Some("(configured)") else None)
  }

  /** The configuration the loop runs with: site capture `call_expr`, language Python. */
  function Config(): DetectorCore.DetectorConfig {
    DetectorCore.DetectorConfig(PythonGrammar, Python, "call_expr")
  }

  /** What `detect_in_file` returns for each outcome of the parse. */
  function Expected(path: string, source: string, p: Provider, o: ParseOutcome): Result<DetectionResult>
    requires OutcomeWithin(o, |source|)
  {
    match o
    case GrammarError => Err(Parse("Failed to set language"))
    case NoTree => Err(Parse("Failed to parse Python file"))
    case QueryError(e) => Err(Parse("Query error: " + e))
    case Matches(ms) => Ok(DetectionResult(DetectorCore.Instances(path, source, p, Config(), CheckHasBaseUrl, ms)))
  }

  /** `detect_in_file`, with the file's content given: nested loops over the matches
      and their captures. */
  method DetectInFile(path: string, source: string, p: Provider, engine: Engine) returns (r: Result<DetectionResult>)
    requires HasLiveQuery(p)
    requires OutcomeWithin(engine(source, QueryForProvider(p)), |source|)
    ensures r == Expected(path, source, p, engine(source, QueryForProvider(p)))
  {
    var outcome := engine(source, QueryForProvider(p));
    match outcome {
      case GrammarError =>
        return Err(Parse("Failed to set language"));
      case NoTree =>
        return Err(Parse("Failed to parse Python file"));
      case QueryError(e) =>
        return Err(Parse("Query error: " + e));
      case Matches(ms) =>
        var instances: seq<DetectionInstance> := [];
        var i := 0;
        while i < |ms|
          invariant 0 <= i <= |ms|
          invariant MatchesWithin(ms[..i], |source|)
          invariant instances == DetectorCore.Instances(path, source, p, Config(), CheckHasBaseUrl, ms[..i])
        {
          DetectorCore.InstancesStep(path, source, p, Config(), CheckHasBaseUrl, ms, i);
          var found := MatchInstances(path, source, p, ms[i]);
          instances := instances + found;
          i := i + 1;
        }
        assert ms[..|ms|] == ms;
        return Ok(DetectionResult(instances));
    }
  }

  /** The inner loop, over the captures of one match: an instance for each
      `call_expr` capture. */
  method MatchInstances(path: string, source: string, p: Provider, m: QueryMatch) returns (found: seq<DetectionInstance>)
    requires CapturesWithin(m, |source|)
    ensures found == DetectorCore.SiteInstances(path, m.captures, p, Config(), DetectorCore.Flag(source, m, p, CheckHasBaseUrl))
  {
    ghost var flag := DetectorCore.Flag(source, m, p, CheckHasBaseUrl);
    found := [];
    var j := 0;
    while j < |m.captures|
      invariant 0 <= j <= |m.captures|
      invariant found == DetectorCore.SiteInstances(path, m.captures[..j], p, Config(), flag)
    {
      DetectorCore.SiteInstancesStep(path, m.captures, p, Config(), flag, j);
      var capture := m.captures[j];
      if capture.name == "call_expr" {
        var hasBaseUrl := MatchFlag(source, m, p);
        found := found + [DetectionInstance(path, capture.node.row + 1, capture.node.column + 1,
                                            p, Python, hasBaseUrl.0, hasBaseUrl.1)];
      }
      j := j + 1;
    }
    assert m.captures[..|m.captures|] == m.captures;
  }

  /** The flag of one match: the check on its first `args` capture, or `(false, None)`. */
  method MatchFlag(source: string, m: QueryMatch, p: Provider) returns (flag: (bool, Option<string>))
    requires CapturesWithin(m, |source|)
    ensures flag == DetectorCore.Flag(source, m, p, CheckHasBaseUrl)
  {
    var args := FindCapture(m.captures, "args");
    flag := (false, None);
    if args.Some? {
      FoundCaptureWithin(m, |source|, "args");
      flag := CheckHasBaseUrl(source[args.value.node.startByte..args.value.node.endByte], p);
    }
  }

  /** The query matches exactly the direct call of the provider's class; the
      module-qualified call `m.C(...)` is not reported. */
  lemma QueryMatchesDirectCallOnly(p: Provider, s: CallShape)
    requires HasLiveQuery(p)
    ensures QueryMatches(QueryForProvider(p), s) <==> s == Call(Ident(DetectedClass(p)))
  {
    if s == Call(Ident(DetectedClass(p))) {
      assert PatternMatches(QueryForProvider(p).patterns[0], s);
    }
  }

  /** For its four providers the detector's query is the Python transformer's, so both
      visit the same call sites. */
  lemma SameQueryAsTransformer(p: Provider)
    requires HasLiveQuery(p)
    ensures QueryForProvider(p) == PythonTransformer.QueryForProvider(p)
  {
  }

  /** The flag is the transformer's skip test on the same text. */
  lemma FlagIsTransformerCheck(argsText: string, p: Provider)
    ensures CheckHasBaseUrl(argsText, p).0 == PythonTransformer.HasBaseUrl(argsText)
  {
  }

  /** Detection and transformation agree match by match: a match reported without a
      base URL gets an edit from the transformer, and one reported with a base URL
      gets none. */
  lemma DetectionAgreesWithTransform(source: string, m: QueryMatch, p: Provider, proxyUrl: string, envVar: string)
    requires CapturesWithin(m, |source|)
    requires FindCapture(m.captures, "args").Some?
    ensures PythonTransformer.MatchEdit(source, m, proxyUrl, envVar).Some? <==>
            !DetectorCore.Flag(source, m, p, CheckHasBaseUrl).0
  {
    FoundCaptureWithin(m, |source|, "args");
    var c := FindCapture(m.captures, "args").value;
    PythonTransformer.SkipsExactlyConfigured(NodeText(source, c.node), proxyUrl, envVar);
  }

  /** Every instance is a Python instance at a 1-based position whose placeholder is
      present exactly when the flag is set, and is never the configured value. */
  lemma InstancesRedacted(path: string, source: string, p: Provider, ms: seq<QueryMatch>)
    requires MatchesWithin(ms, |source|)
    ensures forall inst :: inst in DetectorCore.Instances(path, source, p, Config(), CheckHasBaseUrl, ms) ==>
      inst.language == Python && inst.provider == p && inst.line >= 1 && inst.column >= 1 &&
      inst.currentBaseUrl == (if inst.hasBaseUrl then Some("(configured)") else None)
  {
    DetectorCore.InstancesFields(path, source, p, Config(), CheckHasBaseUrl, ms);
    DetectorCore.InstancesFlags(path, source, p, Config(), CheckHasBaseUrl, ms,
      (b: bool, u: Option<string>) => u == (if b then Some("(configured)") else None));
  }
}
