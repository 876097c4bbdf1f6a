/** `TypeScriptDetector` of src/detector/typescript.rs: reports every `new C(...)` of a
    provider's SDK class through the shared loop of `detect_in_file_generic`. */
module TypeScriptDetector {
  import opened Wrappers
  import opened Strings
  import opened Errors
  import opened Types
  import opened Syntax
  import DetectorCore
  import TypeScriptTransformer

  /** The class each query names. */
  function DetectedClass(p: Provider): string
    requires HasLiveQuery(p)
  {
    match p
    case OpenAI => "OpenAI"
    case Anthropic => "Anthropic"
    case Cohere => "CohereClient"
    case HuggingFace => "HfInference"
  }

  /** `get_query_for_provider`: `new C(...)` with the identifier constructor `C`. */
  function QueryForProvider(p: Provider): (q: Query)
    requires HasLiveQuery(p)
    ensures q.grammar == TypeScriptGrammar && q.siteCapture == "new_expr" && |q.patterns| == 1
  {
    match p
    case OpenAI => Query(TypeScriptGrammar, [NewIdent("OpenAI")], "new_expr")
    case Anthropic => Query(TypeScriptGrammar, [NewIdent("Anthropic")], "new_expr")
    case Cohere => Query(TypeScriptGrammar, [NewIdent("CohereClient")], "new_expr")
    case HuggingFace => Query(TypeScriptGrammar, [NewIdent("HfInference")], "new_expr")
  }

  /** The four spellings the detector accepts as a base-URL property in the text of
      the arguments. */
  predicate HasBaseUrl(argsText: string, p: Provider) {
    Contains(argsText, BaseUrlParam(p) + ":") ||
    Contains(argsText, "\"" + BaseUrlParam(p) + "\": ") ||
    Contains(argsText, "'" + BaseUrlParam(p) + "': ") ||
    Contains(argsText, "base_url:")
  }

  /** `check_has_base_url`, with a placeholder in place of the configured value. */
  function CheckHasBaseUrl(argsText: string, p: Provider): (r: (bool, Option<string>))
    ensures r.1 == if r.0 then Some("(configured)") else None
  {
    var hasBaseUrl := HasBaseUrl(argsText, p);
    (hasBaseUrl, if hasBaseUrl then Some("(configured)") else None)
  }

  /** The `DetectorConfig` of `detect_in_file`: language TypeScript, site `new_expr`. */
  function Config(): DetectorCore.DetectorConfig {
    DetectorCore.DetectorConfig(TypeScriptGrammar, TypeScript, "new_expr")
  }

  /** `detect_in_file`: the shared loop with this detector's query and check. */
  method DetectInFile(path: string, source: string, p: Provider, engine: Engine) returns (r: Result<DetectionResult>)
    requires HasLiveQuery(p)
    requires OutcomeWithin(engine(source, QueryForProvider(p)), |source|)
    ensures r == DetectorCore.Expected(path, source, p, Config(), CheckHasBaseUrl, engine(source, QueryForProvider(p)))
  {
    r := DetectorCore.DetectInFileGeneric(path, source, p, Config(), QueryForProvider(p), CheckHasBaseUrl, engine);
  }

  /** The query matches exactly `new C(...)` with the provider's class. */
  lemma QueryMatchesNewOnly(p: Provider, s: CallShape)
    requires HasLiveQuery(p)
    ensures QueryMatches(QueryForProvider(p), s) <==> s == New(Ident(DetectedClass(p)))
  {
    if s == New(Ident(DetectedClass(p))) {
      assert PatternMatches(QueryForProvider(p).patterns[0], s);
    }
  }

  /** The detector and the transformer use the same query. */
  lemma SameQueryAsTransformer(p: Provider)
    requires HasLiveQuery(p)
    ensures QueryForProvider(p) == TypeScriptTransformer.QueryForProvider(p)
  {
  }

  /** When the transformer's check holds on an options object, the detector's check
      holds on any argument text that contains that object: the transformer's three
      spellings are among the detector's four. */
  lemma TransformerCheckImpliesDetector(objectText: string, argsText: string, p: Provider)
    requires TypeScriptTransformer.HasBaseUrl(objectText, p)
    requires Contains(argsText, objectText)
    ensures CheckHasBaseUrl(argsText, p).0
  {
    if Contains(objectText, BaseUrlParam(p) + ":") {
      ContainsTransitive(argsText, objectText, BaseUrlParam(p) + ":");
    } else if Contains(objectText, "\"" + BaseUrlParam(p) + "\": ") {
      ContainsTransitive(argsText, objectText, "\"" + BaseUrlParam(p) + "\": ");
    } else {
      ContainsTransitive(argsText, objectText, "base_url:");
    }
  }

  /** The converse fails: a single-quoted key counts as configured for the detector
      but not for the transformer, which rewrites that object. */
  lemma SingleQuotedKeyDisagrees()
    ensures CheckHasBaseUrl("({'baseURL': u})", OpenAI).0
    ensures !TypeScriptTransformer.HasBaseUrl("{'baseURL': u}", OpenAI)
  {
    var args := "({'baseURL': u})";
    assert args == "({" + ("'" + "baseURL" + "': ") + "u})";
    ContainsMiddle("({", "'" + "baseURL" + "': ", "u})");
    var obj := "{'baseURL': u}";
    UnquotedKeyAbsent(obj);
    DoubleQuotedKeyAbsent(obj);
    SnakeKeyAbsent(obj);
  }

  lemma UnquotedKeyAbsent(obj: string)
    requires obj == "{'baseURL': u}"
    ensures !Contains(obj, "baseURL" + ":")
  {
    var key := "baseURL" + ":";
    forall i: nat ensures !OccursAt(obj, key, i) {
      if i + |key| <= |obj| {
        if i == 2 { Mismatch(obj, key, i, 7); } else { Mismatch(obj, key, i, 0); }
      }
    }
  }

  lemma DoubleQuotedKeyAbsent(obj: string)
    requires obj == "{'baseURL': u}"
    ensures !Contains(obj, "\"" + "baseURL" + "\": ")
  {
    var key := "\"" + "baseURL" + "\": ";
    forall i: nat ensures !OccursAt(obj, key, i) {
      if i + |key| <= |obj| { Mismatch(obj, key, i, 0); }
    }
  }

  lemma SnakeKeyAbsent(obj: string)
    requires obj == "{'baseURL': u}"
    ensures !Contains(obj, "base_url:")
  {
    var key := "base_url:";
    forall i: nat ensures !OccursAt(obj, key, i) {
      if i + |key| <= |obj| { Mismatch(obj, key, i, 4); }
    }
  }

  /** Every instance is tagged TypeScript, also for `.js` and `.jsx` files, sits at a
      1-based position, and carries a placeholder exactly when its flag is set. */
  lemma InstancesRedacted(path: string, source: string, p: Provider, ms: seq<QueryMatch>)
    requires MatchesWithin(ms, |source|)
    ensures forall inst :: inst in DetectorCore.Instances(path, source, p, Config(), CheckHasBaseUrl, ms) ==>
      inst.language == TypeScript && inst.provider == p && inst.line >= 1 && inst.column >= 1 &&
      inst.currentBaseUrl == (if inst.hasBaseUrl then Some("(configured)") else None)
  {
    DetectorCore.InstancesFields(path, source, p, Config(), CheckHasBaseUrl, ms);
    DetectorCore.InstancesFlags(path, source, p, Config(), CheckHasBaseUrl, ms,
      (b: bool, u: Option<string>) => u == (if b then Some("(configured)") else None));
  }
}
