/** `TypeScriptTransformer` of src/transformer/typescript.rs: rewrites the options
    object of every SDK constructor `new C({...})` that sets no base URL. */
module TypeScriptTransformer {
  import opened Wrappers
  import opened Strings
  import opened Errors
  import opened Types
  import opened Syntax
  import opened Edits
  import Queries

  /** `get_query_for_provider`: `new C(...)` with the identifier constructor `C`; only
      four providers have one. */
  function QueryForProvider(p: Provider): (q: Query)
    requires HasLiveQuery(p)
    ensures q.grammar == TypeScriptGrammar && q.siteCapture == "new_expr" && |q.patterns| == 1
  {
    match p
    case OpenAI => Query(TypeScriptGrammar, [NewIdent("OpenAI")], "new_expr")
    case Anthropic => Query(TypeScriptGrammar, [NewIdent("Anthropic")], "new_expr")
    case Cohere => Query(TypeScriptGrammar, [NewIdent("CohereClient")], "new_expr")
    case HuggingFace => Query(TypeScriptGrammar, [NewIdent("HfInference")], "new_expr")
  }

  /** `has_base_url`, on the text of the options object. */
  predicate HasBaseUrl(objectText: string, p: Provider) {
    Contains(objectText, BaseUrlParam(p) + ":") ||
    Contains(objectText, "\"" + BaseUrlParam(p) + "\": ") ||
    Contains(objectText, "base_url:")
  }

  /** The object text with all leading `{` and all trailing `}` removed, then trimmed. */
  function Inner(objectText: string): string {
    Trim(TrimEndMatches(TrimStartMatches(objectText, '{'), '}'))
  }

  function CredentialEntry(p: Provider, envVar: string): string {
    "  " + ApiKeyParam(p) + ": process.env." + envVar + ",\n"
  }

  function BaseUrlEntry(p: Provider, proxyUrl: string): string {
    "  " + BaseUrlParam(p) + ": \"" + proxyUrl + "\"\n"
  }

  /** The object built around the trimmed inner text: the credential and the base
      URL for an empty object; otherwise the existing properties, a comma unless
      they end with one, and the base URL. */
  function Replacement(inner: string, p: Provider, proxyUrl: string, envVar: string): string {
    if inner == "" then "{\n" + CredentialEntry(p, envVar) + BaseUrlEntry(p, proxyUrl) + "}"
    else "{\n" + "  " + inner + (if EndsWith(inner, ",") then "" else ",") + "\n" + BaseUrlEntry(p, proxyUrl) + "}"
  }

  /** The replacement object `transform_object` builds, or None when the object
      already sets a base URL. */
  function RewrittenObject(objectText: string, p: Provider, proxyUrl: string, envVar: string): Option<string> {
    if HasBaseUrl(objectText, p) then None
    else Some(Replacement(Inner(objectText), p, proxyUrl, envVar))
  }

  /** `transform_object`: skips an object that sets a base URL, then builds the new
      object from the inner text. */
  method TransformObject(source: string, objectNode: Node, p: Provider, proxyUrl: string, envVar: string)
    returns (r: Option<string>)
    requires objectNode.startByte <= objectNode.endByte <= |source|
    ensures r == RewrittenObject(NodeText(source, objectNode), p, proxyUrl, envVar)
  {
    var objectText := source[objectNode.startByte..objectNode.endByte];
    if HasBaseUrl(objectText, p) {
      return None;
    }
    var inner := Trim(TrimEndMatches(TrimStartMatches(objectText, '{'), '}'));
    TrimIdempotent(TrimEndMatches(TrimStartMatches(objectText, '{'), '}'));
    var newObject := BuildObject(inner, p, proxyUrl, envVar);
    r := Some(newObject);
  }

  /** The pushes of `transform_object` once the inner text is known. */
  method BuildObject(inner: string, p: Provider, proxyUrl: string, envVar: string) returns (newObject: string)
    requires Trim(inner) == inner
    ensures newObject == Replacement(inner, p, proxyUrl, envVar)
  {
    newObject := "{\n";
    if inner == "" {
      newObject := newObject + CredentialEntry(p, envVar);
      newObject := newObject + BaseUrlEntry(p, proxyUrl);
    } else {
      var trimmed := Trim(inner);
      newObject := newObject + "  ";
      newObject := newObject + trimmed;
      if !EndsWith(trimmed, ",") {
        newObject := newObject + ",";
      }
      newObject := newObject + "\n";
      newObject := newObject + BaseUrlEntry(p, proxyUrl);
    }
    newObject := newObject + "}";
  }

  /** The first child of kind `object`. */
  function FirstObject(children: seq<Node>): (r: Option<Node>)
    ensures r.Some? ==> exists i :: 0 <= i < |children| && children[i] == r.value &&
                                (forall j :: 0 <= j < i ==> children[j].kind != "object")
    ensures r.Some? ==> r.value.kind == "object"
    ensures r.None? <==> forall i :: 0 <= i < |children| ==> children[i].kind != "object"
  {
    if children == [] then None
    else if children[0].kind == "object" then
      assert children[0] == children[0];
      Some(children[0])
    else
      var r := FirstObject(children[1..]);
      if r.Some? then
        var i :| 0 <= i < |children[1..]| && children[1..][i] == r.value &&
          forall j :: 0 <= j < i ==> children[1..][j].kind != "object";
        assert children[i + 1] == r.value;
        assert forall j :: 0 <= j < i + 1 ==> children[j].kind != "object" by {
          forall j | 0 <= j < i + 1 ensures children[j].kind != "object" {
            if j > 0 { assert children[j] == children[1..][j - 1]; }
          }
        }
        r
      else
        assert forall i :: 0 <= i < |children| ==> children[i].kind != "object" by {
          forall i | 0 <= i < |children| ensures children[i].kind != "object" {
            if i > 0 { assert children[i] == children[1..][i - 1]; }
          }
        }
        r
  }

  /** The loop over the children of the argument list that stops at the first object. */
  method FindObjectChild(args: Node) returns (objectNode: Option<Node>)
    ensures objectNode == FirstObject(args.children)
  {
    objectNode := None;
    var i := 0;
    while i < |args.children|
      invariant 0 <= i <= |args.children|
      invariant forall j :: 0 <= j < i ==> args.children[j].kind != "object"
    {
      if args.children[i].kind == "object" {
        objectNode := Some(args.children[i]);
        FirstObjectAt(args.children, i);
        return;
      }
      i := i + 1;
    }
  }

  lemma FirstObjectAt(children: seq<Node>, i: nat)
    requires i < |children| && children[i].kind == "object"
    requires forall j :: 0 <= j < i ==> children[j].kind != "object"
    ensures FirstObject(children) == Some(children[i])
  {
    var r := FirstObject(children);
    var k :| 0 <= k < |children| && children[k] == r.value &&
      forall j :: 0 <= j < k ==> children[j].kind != "object";
    assert k == i;
  }

  /** A child of a node within the source lies within the source, inside its parent. */
  lemma ChildWithin(parent: Node, child: Node, size: nat)
    requires NodeWithin(parent, 0, size) && child in parent.children
    ensures NodeWithin(child, parent.startByte, parent.endByte)
    ensures child.endByte <= size
  {
  }

  /** The edit one match contributes: the first object among the children of its first
      `args` capture, rewritten, unless there is none or it already sets a base URL. */
  function MatchEdit(source: string, m: QueryMatch, p: Provider, proxyUrl: string, envVar: string): Option<Edit>
    requires CapturesWithin(m, |source|)
  {
    match FindCapture(m.captures, "args")
    case None => None
    case Some(c) =>
      FoundCaptureWithin(m, |source|, "args");
      match FirstObject(c.node.children)
      case None => None
      case Some(obj) =>
        ChildWithin(c.node, obj, |source|);
        match RewrittenObject(NodeText(source, obj), p, proxyUrl, envVar)
        case None => None
        case Some(text) => Some(Edit(obj.startByte, obj.endByte, text))
  }

  /** An edit replaces an object of the source that sets no base URL with one that does. */
  predicate Configures(source: string, p: Provider, e: Edit) {
    e.start <= e.end <= |source| && !HasBaseUrl(source[e.start..e.end], p) && HasBaseUrl(e.replacement, p)
  }

  lemma MatchEditConfigures(source: string, m: QueryMatch, p: Provider, proxyUrl: string, envVar: string)
    requires CapturesWithin(m, |source|)
    requires MatchEdit(source, m, p, proxyUrl, envVar).Some?
    ensures Configures(source, p, MatchEdit(source, m, p, proxyUrl, envVar).value)
  {
    FoundCaptureWithin(m, |source|, "args");
    var c := FindCapture(m.captures, "args").value;
    var obj := FirstObject(c.node.children).value;
    ChildWithin(c.node, obj, |source|);
    RewrittenHasBaseUrl(NodeText(source, obj), p, proxyUrl, envVar);
  }

  /** The `modifications` the loop of `transform_file` collects, in match order. */
  function CollectEdits(source: string, ms: seq<QueryMatch>, p: Provider, proxyUrl: string, envVar: string): (es: seq<Edit>)
    requires MatchesWithin(ms, |source|)
    ensures forall e :: e in es ==> Configures(source, p, e)
  {
    if ms == [] then []
    else
      var m := ms[|ms| - 1];
      var e := MatchEdit(source, m, p, proxyUrl, envVar);
      var init := ms[..|ms| - 1];
      MatchesWithinPrefix(ms, |ms| - 1, |source|);
      var rest := CollectEdits(source, init, p, proxyUrl, envVar);
      if e.Some? then
        MatchEditConfigures(source, m, p, proxyUrl, envVar);
        AppendConfigures(source, p, rest, e.value);
        rest + [e.value]
      else rest
  }

  lemma AppendConfigures(source: string, p: Provider, es: seq<Edit>, e: Edit)
    requires forall x :: x in es ==> Configures(source, p, x)
    requires Configures(source, p, e)
    ensures forall x :: x in es + [e] ==> Configures(source, p, x)
  {
  }

  /** One turn of the loop of `transform_file`: the edit one match contributes. */
  method EditForMatch(source: string, m: QueryMatch, p: Provider, proxyUrl: string, envVar: string) returns (e: Option<Edit>)
    requires CapturesWithin(m, |source|)
    ensures e == MatchEdit(source, m, p, proxyUrl, envVar)
  {
    e := None;
    var args := FindCapture(m.captures, "args");
    if args.Some? {
      FoundCaptureWithin(m, |source|, "args");
      var objectNode := FindObjectChild(args.value.node);
      if objectNode.Some? {
        ChildWithin(args.value.node, objectNode.value, |source|);
        var newObject := TransformObject(source, objectNode.value, p, proxyUrl, envVar);
        if newObject.Some? {
          e := Some(Edit(objectNode.value.startByte, objectNode.value.endByte, newObject.value));
        }
      }
    }
  }

  /** Collecting over one more match appends that match's edit, if any. */
  lemma CollectEditsStep(source: string, ms: seq<QueryMatch>, i: nat, p: Provider, proxyUrl: string, envVar: string)
    requires MatchesWithin(ms, |source|) && i < |ms|
    ensures MatchesWithin(ms[..i], |source|) && MatchesWithin(ms[..i + 1], |source|)
    ensures CollectEdits(source, ms[..i + 1], p, proxyUrl, envVar) ==
      CollectEdits(source, ms[..i], p, proxyUrl, envVar) +
      (match MatchEdit(source, ms[i], p, proxyUrl, envVar) case None => [] case Some(e) => [e])
  {
    MatchesWithinPrefix(ms, i, |source|);
    MatchesWithinPrefix(ms, i + 1, |source|);
    assert ms[..i + 1][..i] == ms[..i];
    assert ms[..i + 1][i] == ms[i];
  }

  /** What `transform_file` needs of the parse: captured nodes within the source and,
      for the matches, a splice in which no `replace_range` panics. */
  predicate Ready(source: string, p: Provider, proxyUrl: string, envVar: string, o: ParseOutcome) {
    OutcomeWithin(o, |source|) &&
    (o.Matches? ==> InBounds(source, SortByStartDesc(CollectEdits(source, o.matches, p, proxyUrl, envVar))))
  }

  /** The result `transform_file` returns and the text it writes, if any, for each
      outcome of the parse. */
  function Expected(path: string, source: string, p: Provider, proxyUrl: string, envVar: string, o: ParseOutcome)
    : (Result<TransformResult>, Option<string>)
    requires Ready(source, p, proxyUrl, envVar, o)
  {
    match o
    case GrammarError => (Err(Parse("Failed to set TypeScript language")), None)
    case NoTree => (Err(Parse("Failed to parse TypeScript file")), None)
    case QueryError(e) => (Err(Parse("Query error: " + e)), None)
    case Matches(ms) =>
      var es := CollectEdits(source, ms, p, proxyUrl, envVar);
      (Ok(TransformResult(path, true, es != [], None)), if es == [] then None else Some(ApplyEdits(source, es)))
  }

  /** The loop of `transform_file` over the matches, collecting their edits. */
  method CollectModifications(source: string, ms: seq<QueryMatch>, p: Provider, proxyUrl: string, envVar: string)
    returns (modifications: seq<Edit>)
    requires MatchesWithin(ms, |source|)
    ensures modifications == CollectEdits(source, ms, p, proxyUrl, envVar)
  {
    modifications := [];
    var i := 0;
    while i < |ms|
      invariant 0 <= i <= |ms|
      invariant modifications == CollectEdits(source, ms[..i], p, proxyUrl, envVar)
    {
      CollectEditsStep(source, ms, i, p, proxyUrl, envVar);
      var e := EditForMatch(source, ms[i], p, proxyUrl, envVar);
      if e.Some? {
        modifications := modifications + [e.value];
      }
      i := i + 1;
    }
    assert ms[..|ms|] == ms;
  }

  /** `transform_file`, with the file's content given and the write returned. */
  method TransformFile(path: string, source: string, p: Provider, proxyUrl: string, envVar: string, engine: Engine)
    returns (r: Result<TransformResult>, written: Option<string>)
    requires HasLiveQuery(p)
    requires Ready(source, p, proxyUrl, envVar, engine(source, QueryForProvider(p)))
    ensures (r, written) == Expected(path, source, p, proxyUrl, envVar, engine(source, QueryForProvider(p)))
  {
    written := None;
    var outcome := engine(source, QueryForProvider(p));
    match outcome {
      case GrammarError =>
        return Err(Parse("Failed to set TypeScript language")), None;
      case NoTree =>
        return Err(Parse("Failed to parse TypeScript file")), None;
      case QueryError(e) =>
        return Err(Parse("Query error: " + e)), None;
      case Matches(ms) =>
        var modifications := CollectModifications(source, ms, p, proxyUrl, envVar);
        if modifications == [] {
          return Ok(TransformResult(path, true, false, None)), None;
        }
        var sorted := SortByStartDesc(modifications);
        var newSource := SpliceDescending(source, sorted);
        return Ok(TransformResult(path, true, true, None)), Some(newSource);
    }
  }

  /** Every replacement sets the base URL under the provider's own parameter name. */
  lemma RewrittenHasBaseUrl(objectText: string, p: Provider, proxyUrl: string, envVar: string)
    requires RewrittenObject(objectText, p, proxyUrl, envVar).Some?
    ensures Contains(RewrittenObject(objectText, p, proxyUrl, envVar).value, BaseUrlParam(p) + ":")
    ensures HasBaseUrl(RewrittenObject(objectText, p, proxyUrl, envVar).value, p)
  {
    var inner := Inner(objectText);
    var opening := if inner == "" then "{\n" + CredentialEntry(p, envVar)
      else "{\n" + "  " + inner + (if EndsWith(inner, ",") then "" else ",") + "\n";
    assert RewrittenObject(objectText, p, proxyUrl, envVar).value == opening + BaseUrlEntry(p, proxyUrl) + "}";
    BaseUrlEntrySplit(p, proxyUrl);
    ContainsInside(opening, "  ", BaseUrlParam(p) + ":", " \"" + proxyUrl + "\"\n", "}");
  }

  /** The base-URL entry holds the key `name:`. */
  lemma BaseUrlEntrySplit(p: Provider, proxyUrl: string)
    ensures BaseUrlEntry(p, proxyUrl) == "  " + (BaseUrlParam(p) + ":") + (" \"" + proxyUrl + "\"\n")
  {
    ColonSplit(": \"", ":", " \"");
  }

  lemma ColonSplit(both: string, colon: string, quote: string)
    requires both == ": \"" && colon == ":" && quote == " \""
    ensures both == colon + quote
  {
  }

  /** `transform_object` gives None exactly when the object already sets a base URL. */
  lemma SkipsExactlyConfigured(objectText: string, p: Provider, proxyUrl: string, envVar: string)
    ensures RewrittenObject(objectText, p, proxyUrl, envVar).None? <==> HasBaseUrl(objectText, p)
  {
  }

  /** Rewriting is idempotent: the replacement is left alone by a second rewrite. */
  lemma RewriteIdempotent(objectText: string, p: Provider, proxyUrl: string, envVar: string, proxyUrl2: string, envVar2: string)
    requires RewrittenObject(objectText, p, proxyUrl, envVar).Some?
    ensures RewrittenObject(RewrittenObject(objectText, p, proxyUrl, envVar).value, p, proxyUrl2, envVar2).None?
  {
    RewrittenHasBaseUrl(objectText, p, proxyUrl, envVar);
  }

  /** An empty object receives the credential and the base URL, under the provider's
      parameter names. */
  lemma EmptyObjectReplacement(objectText: string, p: Provider, proxyUrl: string, envVar: string)
    requires !HasBaseUrl(objectText, p) && Inner(objectText) == ""
    ensures RewrittenObject(objectText, p, proxyUrl, envVar) ==
      Some("{\n" + "  " + ApiKeyParam(p) + ": process.env." + envVar + ",\n" +
           "  " + BaseUrlParam(p) + ": \"" + proxyUrl + "\"\n" + "}")
  {
    assert RewrittenObject(objectText, p, proxyUrl, envVar) ==
      Some("{\n" + CredentialEntry(p, envVar) + BaseUrlEntry(p, proxyUrl) + "}");
    Flatten("{\n", "  ", ApiKeyParam(p), ": process.env.", envVar, ",\n",
            "  ", BaseUrlParam(p), ": \"", proxyUrl, "\"\n", "}");
  }

  /** Regrouping an opening, two five-piece entries and a closing piece. */
  lemma Flatten(o: string, a1: string, a2: string, a3: string, a4: string, a5: string,
                b1: string, b2: string, b3: string, b4: string, b5: string, e: string)
    ensures o + (a1 + a2 + a3 + a4 + a5) + (b1 + b2 + b3 + b4 + b5) + e ==
      o + a1 + a2 + a3 + a4 + a5 + b1 + b2 + b3 + b4 + b5 + e
  {
  }

  /** A non-empty object keeps its text, gains a comma when it has none at the end,
      and the base URL; no credential is added. */
  lemma NonEmptyObjectReplacement(objectText: string, p: Provider, proxyUrl: string, envVar: string)
    requires !HasBaseUrl(objectText, p) && Inner(objectText) != ""
    ensures var inner := Inner(objectText);
      RewrittenObject(objectText, p, proxyUrl, envVar) ==
        Some("{\n" + "  " + inner + (if EndsWith(inner, ",") then "" else ",") + "\n" +
             "  " + BaseUrlParam(p) + ": \"" + proxyUrl + "\"\n" + "}")
  {
    var inner := Inner(objectText);
    var head := "{\n" + "  " + inner + (if EndsWith(inner, ",") then "" else ",") + "\n";
    assert RewrittenObject(objectText, p, proxyUrl, envVar) == Some(head + BaseUrlEntry(p, proxyUrl) + "}");
    FlattenTail(head, "  ", BaseUrlParam(p), ": \"", proxyUrl, "\"\n", "}");
  }

  /** Regrouping a prefix, one five-piece entry and a closing piece. */
  lemma FlattenTail(h: string, b1: string, b2: string, b3: string, b4: string, b5: string, e: string)
    ensures h + (b1 + b2 + b3 + b4 + b5) + e == h + b1 + b2 + b3 + b4 + b5 + e
  {
  }

  /** When the text between the outer braces neither starts with `{` nor ends with `}`
      nor has surrounding whitespace, the existing properties are kept verbatim. */
  lemma PropertiesPreserved(x: string, p: Provider, proxyUrl: string, envVar: string)
    requires x != [] && x[0] != '{' && x[|x| - 1] != '}'
    requires !IsWhitespace(x[0]) && !IsWhitespace(x[|x| - 1])
    requires !HasBaseUrl("{" + x + "}", p)
    ensures RewrittenObject("{" + x + "}", p, proxyUrl, envVar) ==
      Some("{\n" + "  " + x + (if EndsWith(x, ",") then "" else ",") + "\n" +
           "  " + BaseUrlParam(p) + ": \"" + proxyUrl + "\"\n" + "}")
  {
    BracedInner(x);
    NonEmptyObjectReplacement("{" + x + "}", p, proxyUrl, envVar);
  }

  lemma BracedInner(x: string)
    requires x != [] && x[0] != '{' && x[|x| - 1] != '}'
    requires !IsWhitespace(x[0]) && !IsWhitespace(x[|x| - 1])
    ensures Inner("{" + x + "}") == x
  {
    var a := "{" + x + "}";
    assert a[0] == '{' && a[1..] == x + "}";
    assert (x + "}")[0] == x[0];
    TrimStartMatchesNoop(x + "}", '{');
    assert (x + "}")[..|x|] == x;
    TrimEndMatchesNoop(x, '}');
    TrimStartNoop(x);
    TrimEndNoop(x);
  }

  /** A match whose argument list has no object child contributes no edit. */
  lemma NoObjectNoEdit(source: string, m: QueryMatch, p: Provider, proxyUrl: string, envVar: string)
    requires CapturesWithin(m, |source|)
    requires FindCapture(m.captures, "args").Some?
    requires forall i :: 0 <= i < |FindCapture(m.captures, "args").value.node.children| ==>
      FindCapture(m.captures, "args").value.node.children[i].kind != "object"
    ensures MatchEdit(source, m, p, proxyUrl, envVar).None?
  {
  }

  /** Only the first object child is rewritten, even when the arguments hold several. */
  lemma OnlyFirstObject(source: string, m: QueryMatch, p: Provider, proxyUrl: string, envVar: string, k: nat)
    requires CapturesWithin(m, |source|)
    requires FindCapture(m.captures, "args").Some?
    requires var args := FindCapture(m.captures, "args").value.node;
      k < |args.children| && args.children[k].kind == "object" &&
      forall j :: 0 <= j < k ==> args.children[j].kind != "object"
    requires MatchEdit(source, m, p, proxyUrl, envVar).Some?
    ensures var obj := FindCapture(m.captures, "args").value.node.children[k];
      MatchEdit(source, m, p, proxyUrl, envVar).value.start == obj.startByte &&
      MatchEdit(source, m, p, proxyUrl, envVar).value.end == obj.endByte
  {
    var args := FindCapture(m.captures, "args").value.node;
    FirstObjectAt(args.children, k);
  }

  /** The transformer's query for each of its four providers is the catalog's. */
  lemma QueryIsCatalog(p: Provider)
    requires HasLiveQuery(p)
    ensures QueryForProvider(p) == Queries.TypeScriptQuery(p)
  {
  }
}
