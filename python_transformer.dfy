/** `PythonTransformer` of src/transformer/python.rs: rewrites the argument list of
    every SDK constructor call that has no `base_url` so that it routes through the
    proxy, then adds `import os` when an edit was made. */
module PythonTransformer {
  import opened Wrappers
  import opened Strings
  import opened Errors
  import opened Types
  import opened Syntax
  import opened Edits
  import Queries

  /** `get_query_for_provider`: the direct call `C(...)` of the provider's class, and
      the attribute call `genai.Client(...)` for Gemini. */
  function QueryForProvider(p: Provider): (q: Query)
    ensures q.grammar == PythonGrammar && q.siteCapture == "call_expr" && |q.patterns| == 1
  {
    match p
    case OpenAI => Query(PythonGrammar, [CallIdent("OpenAI")], "call_expr")
    case Anthropic => Query(PythonGrammar, [CallIdent("Anthropic")], "call_expr")
    case Cohere => Query(PythonGrammar, [CallIdent("CohereClient")], "call_expr")
    case HuggingFace => Query(PythonGrammar, [CallIdent("InferenceClient")], "call_expr")
    case Gemini => Query(PythonGrammar, [CallAttr(Some("genai"), "Client")], "call_expr")
    case Groq => Query(PythonGrammar, [CallIdent("Groq")], "call_expr")
  }

  /** `has_base_url`, on the text of the argument list. */
  predicate HasBaseUrl(argsText: string) {
    Contains(argsText, "base_url=") || Contains(argsText, "base_url =")
  }

  /** The argument text with all leading `(` and all trailing `)` removed, then trimmed. */
  function Inner(argsText: string): string {
    Trim(TrimEndMatches(TrimStartMatches(argsText, '('), ')'))
  }

  function BaseUrlLine(proxyUrl: string): string {
    "    base_url=\"" + proxyUrl + "\"\n"
  }

  function ApiKeyLine(envVar: string): string {
    "    api_key=os.environ.get(\"" + envVar + "\"),\n"
  }

  /** The argument list built around the trimmed inner text: the credential and the
      base URL for an empty list; otherwise the existing arguments, a comma unless
      they end with one, and the base URL. */
  function Replacement(inner: string, proxyUrl: string, envVar: string): string {
    if inner == "" then "(\n" + ApiKeyLine(envVar) + BaseUrlLine(proxyUrl) + ")"
    else "(\n" + "    " + inner + (if EndsWith(inner, ",") then "" else ",") + "\n" + BaseUrlLine(proxyUrl) + ")"
  }

  /** The replacement argument list `transform_args` builds, or None when the call
      already sets a base URL. */
  function RewrittenArgs(argsText: string, proxyUrl: string, envVar: string): Option<string> {
    if HasBaseUrl(argsText) then None
    else Some(Replacement(Inner(argsText), proxyUrl, envVar))
  }

  /** `transform_args`: skips a call that sets a base URL, then builds the new
      argument list from the inner text. */
  method TransformArgs(source: string, argsNode: Node, proxyUrl: string, envVar: string) returns (r: Option<string>)
    requires argsNode.startByte <= argsNode.endByte <= |source|
    ensures r == RewrittenArgs(NodeText(source, argsNode), proxyUrl, envVar)
  {
    var argsText := source[argsNode.startByte..argsNode.endByte];
    if HasBaseUrl(argsText) {
      return None;
    }
    var inner := Trim(TrimEndMatches(TrimStartMatches(argsText, '('), ')'));
    TrimIdempotent(TrimEndMatches(TrimStartMatches(argsText, '('), ')'));
    var newArgs := BuildArgs(inner, proxyUrl, envVar);
    r := Some(newArgs);
  }

  /** The pushes of `transform_args` once the inner text is known. */
  method BuildArgs(inner: string, proxyUrl: string, envVar: string) returns (newArgs: string)
    requires Trim(inner) == inner
    ensures newArgs == Replacement(inner, proxyUrl, envVar)
  {
    newArgs := "(\n";
    if inner == "" {
      newArgs := newArgs + ApiKeyLine(envVar);
      newArgs := newArgs + BaseUrlLine(proxyUrl);
    } else {
      var trimmed := Trim(inner);
      newArgs := newArgs + "    ";
      newArgs := newArgs + trimmed;
      if !EndsWith(trimmed, ",") {
        newArgs := newArgs + ",";
      }
      newArgs := newArgs + "\n";
      newArgs := newArgs + BaseUrlLine(proxyUrl);
    }
    newArgs := newArgs + ")";
  }

  /** `ensure_os_import` */
  function EnsureOsImport(source: string): (r: string)
    ensures Contains(r, "import os")
    ensures EndsWith(r, source)
  {
    if Contains(source, "import os") then source
    else
      ContainsMiddle("", "import os", "\n\n" + source);
      assert "import os\n\n" + source == "" + "import os" + ("\n\n" + source);
      "import os\n\n" + source
  }

  /** The edit one match contributes: its first `args` capture, rewritten, unless the
      match has no such capture or the call already sets a base URL. */
  function MatchEdit(source: string, m: QueryMatch, proxyUrl: string, envVar: string): Option<Edit>
    requires CapturesWithin(m, |source|)
  {
    match FindCapture(m.captures, "args")
    case None => None
    case Some(c) =>
      FoundCaptureWithin(m, |source|, "args");
      match RewrittenArgs(NodeText(source, c.node), proxyUrl, envVar)
      case None => None
      case Some(text) => Some(Edit(c.node.startByte, c.node.endByte, text))
  }

  /** An edit replaces an argument list of the source that sets no base URL with one
      that does. */
  predicate Configures(source: string, e: Edit) {
    e.start <= e.end <= |source| && !HasBaseUrl(source[e.start..e.end]) && HasBaseUrl(e.replacement)
  }

  /** The `modifications` the loop of `transform_file` collects, in match order. */
  function CollectEdits(source: string, ms: seq<QueryMatch>, proxyUrl: string, envVar: string): (es: seq<Edit>)
    requires MatchesWithin(ms, |source|)
    ensures forall e :: e in es ==> Configures(source, e)
  {
    if ms == [] then []
    else
      var m := ms[|ms| - 1];
      var e := MatchEdit(source, m, proxyUrl, envVar);
      var init := ms[..|ms| - 1];
      MatchesWithinPrefix(ms, |ms| - 1, |source|);
      var rest := CollectEdits(source, init, proxyUrl, envVar);
      if e.Some? then
        MatchEditConfigures(source, m, proxyUrl, envVar);
        rest + [e.value]
      else rest
  }

  lemma MatchEditConfigures(source: string, m: QueryMatch, proxyUrl: string, envVar: string)
    requires CapturesWithin(m, |source|)
    requires MatchEdit(source, m, proxyUrl, envVar).Some?
    ensures Configures(source, MatchEdit(source, m, proxyUrl, envVar).value)
  {
    FoundCaptureWithin(m, |source|, "args");
    var c := FindCapture(m.captures, "args").value;
    RewrittenHasBaseUrl(NodeText(source, c.node), proxyUrl, envVar);
  }

  /** One turn of the loop of `transform_file`: the edit one match contributes. */
  method EditForMatch(source: string, m: QueryMatch, proxyUrl: string, envVar: string) returns (e: Option<Edit>)
    requires CapturesWithin(m, |source|)
    ensures e == MatchEdit(source, m, proxyUrl, envVar)
  {
    e := None;
    var args := FindCapture(m.captures, "args");
    if args.Some? {
      FoundCaptureWithin(m, |source|, "args");
      var newArgs := TransformArgs(source, args.value.node, proxyUrl, envVar);
      if newArgs.Some? {
        e := Some(Edit(args.value.node.startByte, args.value.node.endByte, newArgs.value));
      }
    }
  }

  /** Collecting over one more match appends that match's edit, if any. */
  lemma CollectEditsStep(source: string, ms: seq<QueryMatch>, i: nat, proxyUrl: string, envVar: string)
    requires MatchesWithin(ms, |source|) && i < |ms|
    ensures MatchesWithin(ms[..i], |source|) && MatchesWithin(ms[..i + 1], |source|)
    ensures CollectEdits(source, ms[..i + 1], proxyUrl, envVar) ==
      CollectEdits(source, ms[..i], proxyUrl, envVar) +
      (match MatchEdit(source, ms[i], proxyUrl, envVar) case None => [] case Some(e) => [e])
  {
    MatchesWithinPrefix(ms, i, |source|);
    MatchesWithinPrefix(ms, i + 1, |source|);
    assert ms[..i + 1][..i] == ms[..i];
    assert ms[..i + 1][i] == ms[i];
  }

  /** What `transform_file` needs of the parse: captured nodes within the source and,
      for the matches, a splice in which no `replace_range` panics. */
  predicate Ready(source: string, p: Provider, proxyUrl: string, envVar: string, o: ParseOutcome) {
    OutcomeWithin(o, |source|) &&
    (o.Matches? ==> InBounds(source, SortByStartDesc(CollectEdits(source, o.matches, proxyUrl, envVar))))
  }

  /** The result `transform_file` returns and the text it writes, if any, for each
      outcome of the parse. */
  function Expected(path: string, source: string, p: Provider, proxyUrl: string, envVar: string, o: ParseOutcome)
    : (Result<TransformResult>, Option<string>)
    requires Ready(source, p, proxyUrl, envVar, o)
  {
    match o
    case GrammarError => (Err(Parse("Failed to set Python language")), None)
    case NoTree => (Err(Parse("Failed to parse Python file")), None)
    case QueryError(e) => (Err(Parse("Query error: " + e)), None)
    case Matches(ms) =>
      var es := CollectEdits(source, ms, proxyUrl, envVar);
      (Ok(TransformResult(path, true, es != [], None)), if es == [] then None else Some(EnsureOsImport(ApplyEdits(source, es))))
  }

  /** The loop of `transform_file` over the matches, collecting their edits. */
  method CollectModifications(source: string, ms: seq<QueryMatch>, proxyUrl: string, envVar: string)
    returns (modifications: seq<Edit>)
    requires MatchesWithin(ms, |source|)
    ensures modifications == CollectEdits(source, ms, proxyUrl, envVar)
  {
    modifications := [];
    var i := 0;
    while i < |ms|
      invariant 0 <= i <= |ms|
      invariant modifications == CollectEdits(source, ms[..i], proxyUrl, envVar)
    {
      CollectEditsStep(source, ms, i, proxyUrl, envVar);
      var e := EditForMatch(source, ms[i], proxyUrl, envVar);
      if e.Some? {
        modifications := modifications + [e.value];
      }
      i := i + 1;
    }
    assert ms[..|ms|] == ms;
  }

  /** `transform_file`, with the file's content given and the write returned. */
  method TransformFile(path: string, source: string, p: Provider, proxyUrl: string, envVar: string, engine: Engine)
    returns (r: Result<TransformResult>, written: Option<string>)
    requires Ready(source, p, proxyUrl, envVar, engine(source, QueryForProvider(p)))
    ensures (r, written) == Expected(path, source, p, proxyUrl, envVar, engine(source, QueryForProvider(p)))
  {
    written := None;
    var outcome := engine(source, QueryForProvider(p));
    match outcome {
      case GrammarError =>
        return Err(Parse("Failed to set Python language")), None;
      case NoTree =>
        return Err(Parse("Failed to parse Python file")), None;
      case QueryError(e) =>
        return Err(Parse("Query error: " + e)), None;
      case Matches(ms) =>
        var modifications := CollectModifications(source, ms, proxyUrl, envVar);
        if modifications == [] {
          return Ok(TransformResult(path, true, false, None)), None;
        }
        var sorted := SortByStartDesc(modifications);
        var newSource := SpliceDescending(source, sorted);
        newSource := EnsureOsImport(newSource);
        return Ok(TransformResult(path, true, true, None)), Some(newSource);
    }
  }

  /** Every replacement sets the base URL. */
  lemma RewrittenHasBaseUrl(argsText: string, proxyUrl: string, envVar: string)
    requires RewrittenArgs(argsText, proxyUrl, envVar).Some?
    ensures HasBaseUrl(RewrittenArgs(argsText, proxyUrl, envVar).value)
  {
    var inner := Inner(argsText);
    var head := if inner == "" then "(\n" + ApiKeyLine(envVar)
      else "(\n" + "    " + inner + (if EndsWith(inner, ",") then "" else ",") + "\n";
    assert RewrittenArgs(argsText, proxyUrl, envVar).value == head + BaseUrlLine(proxyUrl) + ")";
    BaseUrlLineSplit(proxyUrl);
    ContainsInside(head, "    ", "base_url=", "\"" + proxyUrl + "\"\n", ")");
  }

  lemma BaseUrlLineSplit(proxyUrl: string)
    ensures BaseUrlLine(proxyUrl) == "    " + "base_url=" + ("\"" + proxyUrl + "\"\n")
  {
    BaseUrlKeySplit("    base_url=\"", "    ", "base_url=", "\"");
  }

  lemma BaseUrlKeySplit(line: string, indent: string, key: string, quote: string)
    requires line == "    base_url=\"" && indent == "    " && key == "base_url=" && quote == "\""
    ensures line == indent + key + quote
  {
  }

  /** `transform_args` gives None exactly when the call already sets a base URL. */
  lemma SkipsExactlyConfigured(argsText: string, proxyUrl: string, envVar: string)
    ensures RewrittenArgs(argsText, proxyUrl, envVar).None? <==> HasBaseUrl(argsText)
  {
  }

  /** Rewriting is idempotent: the replacement is left alone by a second rewrite, for
      any proxy URL and variable. */
  lemma RewriteIdempotent(argsText: string, proxyUrl: string, envVar: string, proxyUrl2: string, envVar2: string)
    requires RewrittenArgs(argsText, proxyUrl, envVar).Some?
    ensures RewrittenArgs(RewrittenArgs(argsText, proxyUrl, envVar).value, proxyUrl2, envVar2).None?
  {
    RewrittenHasBaseUrl(argsText, proxyUrl, envVar);
  }

  /** An empty argument list receives the credential and the base URL. */
  lemma EmptyArgsReplacement(argsText: string, proxyUrl: string, envVar: string)
    requires !HasBaseUrl(argsText) && Inner(argsText) == ""
    ensures RewrittenArgs(argsText, proxyUrl, envVar) ==
      Some("(\n" + "    api_key=os.environ.get(\"" + envVar + "\"),\n" + "    base_url=\"" + proxyUrl + "\"\n" + ")")
  {
    assert RewrittenArgs(argsText, proxyUrl, envVar) == Some("(\n" + ApiKeyLine(envVar) + BaseUrlLine(proxyUrl) + ")");
    Regroup("(\n", "    api_key=os.environ.get(\"", envVar, "\"),\n", "    base_url=\"", proxyUrl, "\"\n", ")");
  }

  /** `()` is such an empty argument list. */
  lemma EmptyCall(proxyUrl: string, envVar: string)
    ensures RewrittenArgs("()", proxyUrl, envVar) ==
      Some("(\n" + "    api_key=os.environ.get(\"" + envVar + "\"),\n" + "    base_url=\"" + proxyUrl + "\"\n" + ")")
  {
    EmptyCallInner("()");
    EmptyArgsReplacement("()", proxyUrl, envVar);
  }

  lemma EmptyCallInner(a: string)
    requires a == "()"
    ensures !HasBaseUrl(a) && Inner(a) == ""
  {
    NotContainsLonger(a, "base_url=");
    NotContainsLonger(a, "base_url =");
    assert a[1..] == ")";
    TrimStartMatchesNoop(")", '(');
    assert ")"[..0] == "";
  }

  lemma NotContainsLonger(s: string, t: string)
    requires |s| < |t|
    ensures !Contains(s, t)
  {
  }

  /** A non-empty argument list keeps its text, gains a comma when it has none at the
      end, and the base URL; no credential is added. */
  lemma NonEmptyArgsReplacement(argsText: string, proxyUrl: string, envVar: string)
    requires !HasBaseUrl(argsText) && Inner(argsText) != ""
    ensures var inner := Inner(argsText);
      RewrittenArgs(argsText, proxyUrl, envVar) ==
        Some("(\n" + "    " + inner + (if EndsWith(inner, ",") then "" else ",") + "\n" + "    base_url=\"" + proxyUrl + "\"\n" + ")")
  {
    var inner := Inner(argsText);
    var head := "(\n" + "    " + inner + (if EndsWith(inner, ",") then "" else ",") + "\n";
    assert RewrittenArgs(argsText, proxyUrl, envVar) == Some(head + BaseUrlLine(proxyUrl) + ")");
    RegroupTail(head, "    base_url=\"", proxyUrl, "\"\n", ")");
  }

  /** When the text between the outer parentheses neither starts with `(` nor ends
      with `)` nor has surrounding whitespace, the existing arguments are kept verbatim. */
  lemma ArgumentsPreserved(x: string, proxyUrl: string, envVar: string)
    requires x != [] && x[0] != '(' && x[|x| - 1] != ')'
    requires !IsWhitespace(x[0]) && !IsWhitespace(x[|x| - 1])
    requires !HasBaseUrl("(" + x + ")")
    ensures RewrittenArgs("(" + x + ")", proxyUrl, envVar) ==
      Some("(\n" + "    " + x + (if EndsWith(x, ",") then "" else ",") + "\n" + "    base_url=\"" + proxyUrl + "\"\n" + ")")
  {
    var a := "(" + x + ")";
    assert a == "(" + x + ")" + "";
    InnerStripsAllParens(x, "");
    NonEmptyArgsReplacement(a, proxyUrl, envVar);
  }

  /** The stripping removes every leading `(` and trailing `)`: a nested call at the
      end of the arguments loses its closing parenthesis. */
  lemma NestedCallLosesParen()
    ensures Inner("(http_client=make())") == "http_client=make("
  {
    var x := "http_client=make(";
    assert "(http_client=make())" == "(" + x + ")" + ")";
    InnerStripsAllParens(x, ")");
  }

  /** Any run of `)` at the end is stripped, not just the one closing the call. */
  lemma InnerStripsAllParens(x: string, extra: string)
    requires x != [] && x[0] != '(' && x[|x| - 1] != ')'
    requires !IsWhitespace(x[0]) && !IsWhitespace(x[|x| - 1])
    requires forall i :: 0 <= i < |extra| ==> extra[i] == ')'
    ensures Inner("(" + x + ")" + extra) == x
  {
    var a := "(" + x + ")" + extra;
    var rest := x + (")" + extra);
    assert a[0] == '(' && a[1..] == rest;
    assert rest[0] == x[0];
    TrimStartMatchesNoop(rest, '(');
    assert TrimStartMatches(a, '(') == rest;
    var run := ")" + extra;
    assert forall i :: 0 <= i < |run| ==> run[i] == ')' by {
      forall i | 0 <= i < |run| ensures run[i] == ')' {
        if i > 0 { assert run[i] == extra[i - 1]; }
      }
    }
    TrimEndRun(x, run);
    TrimStartNoop(x);
    TrimEndNoop(x);
  }

  lemma {:induction false} TrimEndRun(x: string, run: string)
    requires x == [] || x[|x| - 1] != ')'
    requires forall i :: 0 <= i < |run| ==> run[i] == ')'
    ensures TrimEndMatches(x + run, ')') == x
    decreases |run|
  {
    if run == [] {
      assert x + run == x;
      TrimEndMatchesNoop(x, ')');
    } else {
      var shorter := run[..|run| - 1];
      assert (x + run)[..|x + run| - 1] == x + shorter;
      TrimEndRun(x, shorter);
    }
  }

  /** `ensure_os_import` adds the import only when the text has none, and then
      exactly once, followed by a blank line. */
  lemma EnsureOsImportCases(source: string)
    ensures Contains(source, "import os") ==> EnsureOsImport(source) == source
    ensures !Contains(source, "import os") ==> EnsureOsImport(source) == "import os\n\n" + source
  {
  }

  lemma EnsureOsImportIdempotent(source: string)
    ensures EnsureOsImport(EnsureOsImport(source)) == EnsureOsImport(source)
  {
  }

  /** When every match's argument list already sets a base URL, no edit is collected, so
      a file is neither rewritten nor given an import. */
  lemma {:induction false} NoEditsWhenConfigured(source: string, ms: seq<QueryMatch>, proxyUrl: string, envVar: string)
    requires MatchesWithin(ms, |source|)
    requires forall i :: 0 <= i < |ms| ==>
      var c := FindCapture(ms[i].captures, "args");
      c.Some? ==> (c.value.node.startByte <= c.value.node.endByte <= |source| &&
                   HasBaseUrl(NodeText(source, c.value.node)))
    ensures CollectEdits(source, ms, proxyUrl, envVar) == []
    decreases |ms|
  {
    if ms != [] {
      var init := ms[..|ms| - 1];
      assert forall i :: 0 <= i < |init| ==> init[i] == ms[i];
      NoEditsWhenConfigured(source, init, proxyUrl, envVar);
    }
  }

  /** Each match with an unconfigured argument list contributes exactly one edit. */
  lemma {:induction false} EditCount(source: string, ms: seq<QueryMatch>, proxyUrl: string, envVar: string)
    requires MatchesWithin(ms, |source|)
    ensures |CollectEdits(source, ms, proxyUrl, envVar)| == Unconfigured(source, ms)
    decreases |ms|
  {
    if ms != [] {
      var init := ms[..|ms| - 1];
      assert MatchesWithin(init, |source|) by {
        assert forall i :: 0 <= i < |init| ==> init[i] == ms[i];
      }
      EditCount(source, init, proxyUrl, envVar);
    }
  }

  /** The number of matches whose first `args` capture lacks a base URL. */
  function Unconfigured(source: string, ms: seq<QueryMatch>): nat
    requires MatchesWithin(ms, |source|)
  {
    if ms == [] then 0
    else
      var m := ms[|ms| - 1];
      var c := FindCapture(m.captures, "args");
      var add := if c.Some? then
          FoundCaptureWithin(m, |source|, "args");
          if HasBaseUrl(NodeText(source, c.value.node)) then 0 else 1
        else 0;
      Unconfigured(source, ms[..|ms| - 1]) + add
  }

  /** The transformer's own query table is the transform catalog of the shared module. */
  lemma QueryIsCatalog(p: Provider)
    ensures QueryForProvider(p) == Queries.PythonTransformQuery(p)
  {
  }
}
