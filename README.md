# promptguard-cli, modelled in Dafny

This project models the core of `promptguard-cli`, a command-line tool that sends a
project's LLM SDK calls through the PromptGuard proxy. It does so by rewriting the
constructor calls of the OpenAI, Anthropic, Cohere and HuggingFace clients so that
they carry a `base_url` (Python) or `baseURL`/`baseUrl` (TypeScript) option. The model
covers:

- the SDK-call rewriting engine: the detectors that turn syntax-query captures into
  1-based detection instances with a redacted "has base URL" flag, the transformers
  that build replacement argument lists and option objects, and the splice that
  applies edits in descending start order;
- the static catalog: the `Provider` and `Language` types, the provider registry and
  the three query catalogs, the last as a table of call shapes;
- the line-level editors around the engine: injection and removal of the runtime shim
  import and entry-point classification, `.env` parsing and environment-variable name
  extraction, `.env` key update, removal and lookup, backup naming with no-overwrite
  backups, configuration construction and the `env_file` check of `load`, and API-key
  masking and the answer rule of `confirm`.

Tree-sitter is a foreign parser. Here it is a parameter, a function from the source
text and a query to the matches it reports; each match is a list of named captures
with byte spans and 0-based positions. Files are strings: a file's content is a
parameter, and what an operation writes is its result. The backup manager works on a
file system given as a map from path to content. Strings are sequences of characters,
one character per byte (ASCII text).

One module per source file: `Types` (src/types.rs), `Registry`, `Queries`,
`DetectorCore` (src/detector/core.rs), `PythonDetector`, `TypeScriptDetector`,
`Detector` (src/detector/mod.rs), `PythonTransformer`, `TypeScriptTransformer`,
`Transformer` (src/transformer/mod.rs), `Injector` (src/shim/injector.rs), `EnvScanner`
(src/analyzer/envscanner.rs), `Env` (src/env/mod.rs), `Backup`, `ProjectConfig`
(src/config/mod.rs) and `Output`. Shared helpers: `Wrappers` (Option), `Errors`
(`PromptGuardError` and `Result`), `Strings` (the `str` methods the code uses), `Paths`
(`file_name`, `extension` and `set_extension` of `std::path` on `/`-separated paths),
`Syntax` (nodes, captures and matches) and `Edits` (the shared descending-offset
splice). `EnvScannerExamples` holds the consequences of the `EnvScanner` model on the
inputs of the repository's own tests.

Where the code does something other than what its comments or documentation say,
the model follows the code:

- The live Python detector matches only the direct call of the client class. It does
  not match the attribute call `openai.OpenAI()`, which the query catalog in
  src/detector/queries.rs would also find. That catalog is not declared in
  src/detector/mod.rs and so is not in use.
- The HuggingFace class the Python detector looks for is `InferenceClient`.
- `remove_python_shim` does not undo `inject_python_shim`. It skips lines up to the
  first blank line after the marker, and the shim block has no blank line after it,
  so the original lines that follow the shim are dropped up to their own first blank
  line: injecting into `print('hello')` and removing again leaves a lone line break
  (`Injector.HelloSwallowed`). This is listed under Findings, with a corrected removal
  for which the round trip holds.
- `add_or_update_key` is idempotent only on content whose lines are clean and whose
  last line is not blank (`Env.AddTwice`); `K=v` followed by a blank line is written
  back as `K=v\n` and then as `K=v` (`Env.AddTwiceDiffers`).
- `transform_args` and `transform_object` strip every leading `(`/`{` and every
  trailing `)`/`}`, so `(http_client=make())` loses the parenthesis of the nested
  call (`PythonTransformer.NestedCallLosesParen`).
- `from_python_package` does not match a bare parent package such as `google`,
  whatever its comment says (`Registry.BareParentMatchesNothing`).
- The TypeScript detector accepts a single-quoted `'baseURL':` key as configured; the
  TypeScript transformer does not, and rewrites such an object.
- Both transformers splice edits that may nest: `OpenAI(http_client=OpenAI())` gives
  the inner call's argument list inside the outer one's. The inner edit is spliced
  first and moves the text the outer edit's offsets point at, so the result is
  garbled (`Edits.NestedEditsGarbled`). The model splices as the code does, asking
  only that no `replace_range` panics; this is listed under Findings.
- The environment-variable extractors choose `"` as the quote whenever the text from
  the matched pattern on holds one, even when the pattern itself opens with `'`:
  `os.getenv('K',"d")` gives `d`. This is listed under Findings.

## Model

| member | source | states |
|---|---|---|
| Types.ProviderAsStr | src/types.rs:16-25 | the name is lower-case and one of the names `parse` accepts |
| Types.ParseProvider | src/types.rs:27-37 | `parse` gives a provider exactly when the lower-cased text is one of the eight accepted names |
| Types.BaseUrlParam | src/types.rs:50-55 | the base-URL option is `baseUrl` exactly for HuggingFace and `baseURL` for every other provider |
| Types.ApiKeyParam | src/types.rs:57-62 | the credential option is `accessToken` exactly for HuggingFace and `apiKey` for every other provider |
| Types.ClassNameInjective | src/types.rs:39-48 | two providers with the same class name are the same provider |
| Types.LanguageFromExtension | src/types.rs:87-94 | a language is found exactly for the extensions `ts`, `tsx`, `js`, `jsx` and `py` |
| Types.LanguageAsStr | src/types.rs:96-102 | the name is non-empty and lower-case |
| Types.LanguageOfPath | src/detector/mod.rs:18-20 | a path has a language exactly when its extension is one of the five; a path without an extension has none |
| Types.NewDetectionResult | src/types.rs:116-122 | a new detection result holds no instances |
| Types.ParseAsStr | src/types.rs:16-37 | `parse` undoes `as_str`: `parse(as_str(p)) == Some(p)` for every provider |
| Types.ProviderAsStrInjective | src/types.rs:16-25 | two providers with the same name are the same provider |
| Types.ParseIgnoresCase | src/types.rs:27-28 | `parse(s)` equals `parse(lowercase(s))` |
| Types.ParseAcceptsExactly | src/types.rs:27-37 | `parse` succeeds exactly when the lower-cased text is one of the eight names; `hf` and `google` are the only aliases, of HuggingFace and Gemini |
| Types.ParamNames | src/types.rs:50-62 | HuggingFace uses `baseUrl`/`accessToken`, every other provider `baseURL`/`apiKey`; the two parameter names always differ |
| Types.FromExtensionExactly | src/types.rs:87-94 | `ts`/`tsx` give TypeScript, `js`/`jsx` JavaScript, `py` Python, and every other extension (any other casing included) None |
| Types.LanguageAsStrInjective | src/types.rs:96-102 | distinct languages have distinct names |
| Queries.ClassNameIsSdkClass | src/types.rs:39-48 | the printed class name is the TypeScript constructor of every provider but Gemini, and the Python class of every provider but HuggingFace |
| Queries.TypeScriptQuery | src/detector/queries.rs:8-65 | the query is for the TypeScript grammar and reports the `new_expr` capture |
| Queries.PythonDetectionQuery | src/detector/queries.rs:68-201 | the query is for the Python grammar and reports the `call_expr` capture |
| Queries.PythonTransformQuery | src/detector/queries.rs:204-265 | the query is for the Python grammar and reports the `call_expr` capture |
| Queries.TypeScriptQueryMatches | src/detector/queries.rs:8-65 | a TypeScript query matches a call site exactly when it is `new C(...)` with the provider's constructor identifier |
| Queries.PythonDetectionMatches | src/detector/queries.rs:68-201 | a detection query matches exactly the direct call `C(...)` and the attribute call `m.C(...)` (for Gemini only `genai.Client(...)`) |
| Queries.PythonTransformMatches | src/detector/queries.rs:204-265 | a transform query matches exactly the direct call, or for Gemini exactly `genai.Client(...)` |
| Queries.TransformSitesAreDetected | src/detector/queries.rs:68-265 | every call site the transform query matches, the detection query of the same provider matches too |
| Queries.QualifiedCallDetectedNotTransformed | src/detector/queries.rs:70-90 | `openai.OpenAI()` is detected but not rewritten |
| Queries.GeminiNeedsGenai | src/detector/queries.rs:154-178 | Gemini's `Client` is detected bare or on `genai`, not on another module |
| Queries.ProvidersDisjoint | src/detector/queries.rs:8-265 | no call site is matched by the queries of two different providers, in any of the three catalogs |
| Registry.Find | src/detector/registry.rs:81-105 | the lookup returns the first table entry the test accepts, and None exactly when no entry is accepted |
| Registry.Any | src/detector/registry.rs:83-87 | true exactly when some item is accepted |
| Registry.FromPythonPackage | src/detector/registry.rs:81-89 | a found entry is in the table and has a package equal to the import or a parent of it followed by `.`; None exactly when no entry has one |
| Registry.FromTypeScriptPackage | src/detector/registry.rs:92-96 | a found entry lists the name exactly; None exactly when no entry does |
| Registry.FromApiUrl | src/detector/registry.rs:99-105 | a found entry has an endpoint that occurs in the URL and is the first such entry; None exactly when no endpoint of any entry occurs |
| Registry.AllProviderNames | src/detector/registry.rs:108-110 | one name per table entry, its provider's `as_str`, in table order |
| Registry.TableOrder | src/detector/registry.rs:34-77 | the table has six entries, OpenAI, Anthropic, Cohere, HuggingFace, Gemini, Groq in that order |
| Registry.EachProviderOnce | src/detector/registry.rs:34-77 | every provider has exactly one entry |
| Registry.AllNames | src/detector/registry.rs:108-110 | the names are `openai`, `anthropic`, `cohere`, `huggingface`, `gemini`, `groq` |
| Registry.PythonFirst | src/detector/registry.rs:81-89 | the entry found is the one entry that accepts the package |
| Registry.GenaiSubmodule | src/detector/registry.rs:65-89 | `google.genai.types` finds Gemini through its parent `google.genai` |
| Registry.BareParentMatchesNothing | src/detector/registry.rs:86 | `google` finds nothing: a parent of a registry package does not match it |
| Registry.UnknownPackage | src/detector/registry.rs:123 | `unknown_package` finds nothing |
| Registry.NoEntryAccepts | src/detector/registry.rs:81-89 | a package equal to no registry package and below none finds nothing |
| Registry.TypeScriptExactOnly | src/detector/registry.rs:92-96 | `@anthropic-ai/sdk` finds Anthropic, while the subpath `openai/resources` finds nothing |
| Registry.OpenAiUrl | src/detector/registry.rs:99-105 | `https://api.openai.com/v1/chat` finds OpenAI |
| Registry.OpenAiEndpoint | src/detector/registry.rs:39-105 | any URL holding `api.openai.com` finds OpenAI, the first entry |
| Syntax.FindCapture | src/detector/core.rs:57-61 | the capture found is the first with the name; None exactly when no capture has it |
| DetectorCore.SiteInstances | src/detector/core.rs:52-72 | one instance per capture carrying the site name |
| DetectorCore.SiteInstancesFields | src/detector/core.rs:63-71 | every instance carries the path, 1-based line and column, the provider, the configured language and its match's flag |
| DetectorCore.SiteInstancesMembers | src/detector/core.rs:52-72 | every instance comes from a capture with the site name, and every such capture gives an instance |
| DetectorCore.InstancesFields | src/detector/core.rs:51-74 | every instance of the file carries the path, a 1-based position, the provider and the configured language |
| DetectorCore.InstancesStep | src/detector/core.rs:51-74 | the instances of one more match are those before it followed by that match's own |
| DetectorCore.MatchFlag | src/detector/core.rs:57-61 | the flag is the check on the first `args` capture, or `(false, None)` |
| DetectorCore.MatchInstances | src/detector/core.rs:52-73 | the inner loop pushes exactly the site instances of the match, in capture order |
| DetectorCore.CollectInstances | src/detector/core.rs:49-74 | the outer loop gives the instances of every match, match by match |
| DetectorCore.DetectInFileGeneric | src/detector/core.rs:25-77 | a grammar failure, a missing tree and a bad query give their `Parse` errors; otherwise the instances of all matches |
| DetectorCore.InstanceCount | src/detector/core.rs:51-74 | exactly one instance per site capture over all matches |
| DetectorCore.SiteFlag | src/detector/core.rs:57-70 | every instance of a match carries that match's flag; without an `args` capture the flag is `(false, None)` |
| DetectorCore.NoSiteNoInstance | src/detector/core.rs:53 | a match with no site capture contributes no instance |
| DetectorCore.InstancesFlags | src/detector/core.rs:57-70 | a property of the default flag and of every flag the check gives holds of every instance |
| PythonDetector.QueryForProvider | src/detector/python.rs:15-46 | the query is a single Python pattern whose site capture is `call_expr` |
| PythonDetector.QueryMatchesDirectCallOnly | src/detector/python.rs:15-46 | the query matches exactly the direct call of the provider's class (`InferenceClient` for HuggingFace) |
| PythonDetector.CheckHasBaseUrl | src/detector/python.rs:48-60 | the placeholder `(configured)` is present exactly when the flag is set; the real value is never reported |
| PythonDetector.FlagIsTransformerCheck | src/detector/python.rs:51 | the flag is the Python transformer's skip test on the same text |
| PythonDetector.SameQueryAsTransformer | src/detector/python.rs:15-46 | for its four providers the detector's query is the Python transformer's |
| PythonDetector.DetectionAgreesWithTransform | src/detector/python.rs:84-103 | a match with an `args` capture gets a transformer edit exactly when the detector reports it without a base URL |
| PythonDetector.MatchFlag | src/detector/python.rs:90-93 | the flag is the check on the first `args` capture, or `(false, None)` |
| PythonDetector.MatchInstances | src/detector/python.rs:85-105 | the inner loop pushes one instance per `call_expr` capture, in capture order, as the shared loop does |
| PythonDetector.DetectInFile | src/detector/python.rs:64-109 | a grammar failure, a missing tree and a bad query give their `Parse` errors; otherwise the instances of all matches, the same as the shared loop's |
| PythonDetector.InstancesRedacted | src/detector/python.rs:95-103 | every instance is Python, of the provider, at a 1-based position, with the placeholder exactly when the flag is set |
| TypeScriptDetector.QueryForProvider | src/detector/typescript.rs:14-53 | the query is a single TypeScript pattern whose site capture is `new_expr` |
| TypeScriptDetector.QueryMatchesNewOnly | src/detector/typescript.rs:14-53 | the query matches exactly `new C(...)` with the provider's class |
| TypeScriptDetector.CheckHasBaseUrl | src/detector/typescript.rs:55-75 | the placeholder `(configured)` is present exactly when the flag is set |
| TypeScriptDetector.DetectInFile | src/detector/typescript.rs:79-95 | the shared loop's result with language TypeScript, site `new_expr`, this query and this check |
| TypeScriptDetector.SameQueryAsTransformer | src/detector/typescript.rs:14-53 | the detector's query is the TypeScript transformer's |
| TypeScriptDetector.TransformerCheckImpliesDetector | src/detector/typescript.rs:63-66 | when the transformer's check holds on an options object, the detector's holds on any argument text containing it |
| TypeScriptDetector.SingleQuotedKeyDisagrees | src/detector/typescript.rs:65 | `({'baseURL': u})` counts as configured for the detector but not for the transformer |
| TypeScriptDetector.InstancesRedacted | src/detector/typescript.rs:68-82 | every instance is tagged TypeScript (also in `.js` files), at a 1-based position, with the placeholder exactly when the flag is set |
| Detector.Outcomes | src/detector/mod.rs:33-43 | one detector result per checked provider, from the detector of the file's language |
| Detector.DetectOne | src/detector/mod.rs:34-43 | TypeScript and JavaScript files go to the TypeScript detector, Python files to the Python detector |
| Detector.Scan | src/detector/mod.rs:31-50 | the loop gives the aggregate of the four detector results, stopping at the first error |
| Detector.DetectAllProviders | src/detector/mod.rs:17-51 | an unsupported extension gives an empty list; otherwise the aggregate over OpenAI, Anthropic, Cohere and HuggingFace |
| Detector.AggregateErrSticks | src/detector/mod.rs:33-48 | an error over the first providers is the error of the whole scan |
| Detector.AggregateError | src/detector/mod.rs:33-48 | the scan succeeds exactly when every detector does, and otherwise gives the first detector error |
| Detector.Reported | src/detector/mod.rs:45-47 | the positions, in increasing order, of exactly the results that have an instance |
| Detector.AggregateReported | src/detector/mod.rs:31-50 | a successful scan lists, in provider order, each provider whose result has an instance, with that result |
| Detector.AggregateDistinct | src/detector/mod.rs:24-48 | no provider appears twice in the result |
| Detector.ReportedExactly | src/detector/mod.rs:45-47 | a provider is listed exactly when its result has an instance |
| Detector.ReportedNonEmpty | src/detector/mod.rs:45-47 | every listed result has an instance |
| Detector.CheckedProvidersDistinct | src/detector/mod.rs:24-29 | the checked providers are the four with a live query, each once |
| Detector.UnsupportedFileEmpty | src/detector/mod.rs:18-23 | a file without a supported extension gives an empty list |
| Edits.ReplaceRange | src/transformer/python.rs:191 | `replace_range` takes out the range's bytes and puts in the replacement's |
| Edits.Insert | src/transformer/python.rs:188 | inserting keeps the elements (as a multiset) and the descending order of starts |
| Edits.SortByStartDesc | src/transformer/python.rs:188 | the sort is a permutation of the edits, ordered by descending start |
| Edits.SortApart | src/transformer/python.rs:188 | sorting keeps non-overlapping edits non-overlapping |
| Edits.SortedEditsChain | src/transformer/python.rs:188-193 | sorted non-overlapping edits can be spliced one after another, each range before the previous one |
| Edits.SpliceDescending | src/transformer/python.rs:190-193 | the splice loop replaces the ranges one after another in list order |
| Edits.SpliceIsStitch | src/transformer/python.rs:190-193 | splicing in descending order into the changing buffer gives the original text with each range replaced once, read off the original alone |
| Edits.ApplyEditsIsStitch | src/transformer/python.rs:188-193 | sorting and splicing gives the original text with every range replaced once, in ascending order |
| Edits.ApplyOneEdit | src/transformer/python.rs:192 | a single edit is one `replace_range` |
| Edits.StitchKeepsEnds | src/transformer/python.rs:188-193 | the text before the first range and after the last survives unchanged |
| Edits.ChainInBounds | src/transformer/python.rs:188-193 | edits ordered with each range before the previous one never make a `replace_range` panic |
| Edits.OutermostSpliceable | src/transformer/python.rs:160-193 | of nested or disjoint ranges, the ones enclosed by no other are pairwise disjoint and non-empty within the text |
| Edits.ApplyOutermostIsStitch | src/transformer/python.rs:160-193 | corrected splice: splicing only the outermost of nested or disjoint edits gives the original text with each of those ranges replaced once, in ascending order |
| Edits.OutermostOfNested | src/transformer/python.rs:160-193 | of an outer range and a range inside it, only the outer one is outermost |
| Edits.SpliceTwo | src/transformer/python.rs:188-193 | two edits are spliced later start first: one `replace_range` after the other |
| Edits.NestedEditsGarbled | src/transformer/python.rs:160-193 | the code's splice of a call nested in the arguments of another call, `f(g())`, gives `f(g(),b)b))`; the corrected splice gives `f(g(),b)` |
| Transformer.DispatchTable | src/transformer/mod.rs:27-42 | `ts`, `tsx`, `js`, `jsx` go to the TypeScript transformer, `py` to the Python one, every other extension (or none) is unsupported |
| Transformer.TransformFile | src/transformer/mod.rs:21-45 | an unsupported file gives `success: false`, `modified: false`, `Unsupported file type` and no write; otherwise the chosen transformer's result |
| Transformer.PythonFileDispatch | src/transformer/mod.rs:27-41 | `app/main.py` goes to the Python transformer |
| Transformer.NoExtensionUnsupported | src/transformer/mod.rs:27-37 | `Makefile` is unsupported |
| PythonTransformer.QueryForProvider | src/transformer/python.rs:15-76 | one Python pattern whose site capture is `call_expr` |
| PythonTransformer.QueryIsCatalog | src/transformer/python.rs:15-76 | the query table is the transform catalog of `queries.rs` |
| PythonTransformer.TransformArgs | src/transformer/python.rs:83-123 | the method's pushes build exactly the replacement argument list, or None for a call that sets a base URL |
| PythonTransformer.BuildArgs | src/transformer/python.rs:103-122 | the pushes build the replacement around the inner text |
| PythonTransformer.SkipsExactlyConfigured | src/transformer/python.rs:78-92 | `transform_args` gives None exactly when the text holds `base_url=` or `base_url =` |
| PythonTransformer.RewrittenHasBaseUrl | src/transformer/python.rs:103-122 | every replacement sets `base_url=` |
| PythonTransformer.RewriteIdempotent | src/transformer/python.rs:90-122 | a second rewrite of a replacement, with any proxy URL and variable, gives None |
| PythonTransformer.EmptyArgsReplacement | src/transformer/python.rs:105-109 | an empty argument list receives the credential line and the base-URL line |
| PythonTransformer.EmptyCall | src/transformer/python.rs:98-109 | `()` becomes the credential and the base URL on their own lines |
| PythonTransformer.NonEmptyArgsReplacement | src/transformer/python.rs:110-121 | a non-empty argument list keeps its trimmed text, gains a comma unless it ends with one, then the base URL; no credential is added |
| PythonTransformer.ArgumentsPreserved | src/transformer/python.rs:98-121 | arguments not starting with `(` nor ending with `)` nor surrounded by whitespace are kept verbatim |
| PythonTransformer.NestedCallLosesParen | src/transformer/python.rs:98-101 | `(http_client=make())` loses the closing parenthesis of the nested call |
| PythonTransformer.InnerStripsAllParens | src/transformer/python.rs:98-101 | every trailing `)` is stripped, not only the one closing the call |
| PythonTransformer.EnsureOsImport | src/transformer/python.rs:125-131 | the result contains `import os` and ends with the input |
| PythonTransformer.EnsureOsImportCases | src/transformer/python.rs:125-131 | a text with `import os` is unchanged; otherwise `import os` and a blank line are put in front |
| PythonTransformer.EnsureOsImportIdempotent | src/transformer/python.rs:125-131 | adding the import twice is adding it once |
| PythonTransformer.CollectEdits | src/transformer/python.rs:160-177 | every collected edit replaces an argument list within the source that sets no base URL with one that does |
| PythonTransformer.CollectModifications | src/transformer/python.rs:160-177 | the loop over the matches collects exactly the edits of `CollectEdits`, in match order |
| PythonTransformer.EditForMatch | src/transformer/python.rs:163-176 | a match without `args` is skipped; otherwise the rewritten argument list at the node's span, if any |
| PythonTransformer.TransformFile | src/transformer/python.rs:135-205 | parse failures give their `Parse` errors; no edits give `modified: false` and no write; otherwise the sorted edits are spliced as the code does, `import os` ensured and the result written with `modified: true`; the only demand on the edits is that no `replace_range` panics |
| PythonTransformer.NoEditsWhenConfigured | src/transformer/python.rs:172-186 | when every argument list already sets a base URL nothing is collected, so nothing is written |
| PythonTransformer.EditCount | src/transformer/python.rs:162-177 | one edit per match whose `args` capture sets no base URL |
| TypeScriptTransformer.QueryForProvider | src/transformer/typescript.rs:15-46 | one TypeScript pattern whose site capture is `new_expr` |
| TypeScriptTransformer.QueryIsCatalog | src/transformer/typescript.rs:15-46 | for its four providers the query is the TypeScript catalog's of `queries.rs` |
| TypeScriptTransformer.TransformObject | src/transformer/typescript.rs:57-92 | the method's pushes build exactly the replacement object, or None for an object that sets a base URL |
| TypeScriptTransformer.BuildObject | src/transformer/typescript.rs:74-91 | the pushes build the replacement around the inner text |
| TypeScriptTransformer.SkipsExactlyConfigured | src/transformer/typescript.rs:48-60 | `transform_object` gives None exactly when the object holds `P:`, `"P": ` or `base_url:` for the provider's parameter `P` |
| TypeScriptTransformer.RewrittenHasBaseUrl | src/transformer/typescript.rs:74-90 | every replacement holds the key `P:` and so passes the check |
| TypeScriptTransformer.RewriteIdempotent | src/transformer/typescript.rs:48-90 | a second rewrite of a replacement, with any proxy URL and variable, gives None |
| TypeScriptTransformer.EmptyObjectReplacement | src/transformer/typescript.rs:76-78 | an empty object receives the credential entry and the base-URL entry under the provider's parameter names |
| TypeScriptTransformer.NonEmptyObjectReplacement | src/transformer/typescript.rs:79-88 | a non-empty object keeps its trimmed text, gains a comma unless it ends with one, then the base URL |
| TypeScriptTransformer.PropertiesPreserved | src/transformer/typescript.rs:69-88 | properties not starting with `{` nor ending with `}` nor surrounded by whitespace are kept verbatim |
| TypeScriptTransformer.FirstObject | src/transformer/typescript.rs:129-136 | the child found is the first of kind `object`; None exactly when there is none |
| TypeScriptTransformer.FindObjectChild | src/transformer/typescript.rs:129-136 | the loop stops at the first `object` child |
| TypeScriptTransformer.CollectEdits | src/transformer/typescript.rs:121-143 | every collected edit replaces an object within the source that sets no base URL with one that does |
| TypeScriptTransformer.CollectModifications | src/transformer/typescript.rs:121-143 | the loop over the matches collects exactly the edits of `CollectEdits`, in match order |
| TypeScriptTransformer.EditForMatch | src/transformer/typescript.rs:124-142 | a match without `args` or without an object child is skipped; otherwise the rewritten first object at its span, if any |
| TypeScriptTransformer.NoObjectNoEdit | src/transformer/typescript.rs:129-142 | arguments without an object child give no edit |
| TypeScriptTransformer.OnlyFirstObject | src/transformer/typescript.rs:131-135 | only the first object child is rewritten when there are several |
| TypeScriptTransformer.TransformFile | src/transformer/typescript.rs:96-169 | parse failures give their `Parse` errors; no edits give `modified: false` and no write; otherwise the sorted edits are spliced as the code does and written with `modified: true`; the only demand on the edits is that no `replace_range` panics |
| Injector.StartAfterShebang | src/shim/injector.rs:210-213 | the shim may go no earlier than line 1 exactly when the first line starts with `#!`, else line 0 |
| Injector.DocstringQuote | src/shim/injector.rs:215-226 | a quote is found only when the remaining text, trimmed at the start, opens with `"""` or `'''` (that one, `"""` first); none when it opens with neither |
| Injector.ClosingLine | src/shim/injector.rs:228-237 | a closing line found lies in the scanned range and its trimmed text starts with the quote |
| Injector.InjectPos | src/shim/injector.rs:207-239 | the insertion line lies between the shebang skip and the number of lines |
| Injector.InjectPosition | src/shim/injector.rs:207-239 | the loop computing `inject_pos` gives the insertion line of the specification function |
| Injector.ScanDocstring | src/shim/injector.rs:228-237 | the docstring loop finds the second line whose trimmed text starts with the quote, as the recursive scan does |
| Injector.Injection | src/shim/injector.rs:198-258 | nothing is written exactly when the content already holds the marker |
| Injector.InjectPythonShim | src/shim/injector.rs:198-258 | reports an injection exactly when it writes, and writes what the specification function gives |
| Injector.WriteWithShim | src/shim/injector.rs:241-254 | the writing loop gives every line followed by a line break, with the shim block before the insertion line or at the end |
| Injector.Kept | src/shim/injector.rs:269-287 | removal keeps at most as many lines as it reads |
| Injector.KeptUnmarked | src/shim/injector.rs:273-287 | no kept line holds the marker |
| Injector.Removal | src/shim/injector.rs:261-292 | nothing is written exactly when the content lacks the marker; what is written ends in a line break |
| Injector.RemovePythonShim | src/shim/injector.rs:261-292 | reports a removal exactly when it writes, and writes what the specification function gives |
| Injector.KeptAppend | src/shim/injector.rs:273-287 | the lines kept from two parts are those of the first part followed by those of the second, read in the state the first part leaves |
| Injector.KeptWithoutMarker | src/shim/injector.rs:273-287 | lines without the marker, read while not skipping, are all kept and leave the loop not skipping |
| Injector.MarkerBlockDropped | src/shim/injector.rs:274-284 | a marker line, the non-blank lines after it and the first blank line are all dropped, and the loop stops skipping |
| Injector.SkippedBlock | src/shim/injector.rs:279-284 | while skipping, non-blank lines without the marker are dropped |
| Injector.ShimHasMarker | src/shim/injector.rs:12-14 | the shim block contains the marker |
| Injector.InjectTwice | src/shim/injector.rs:201-204 | injected content holds the marker, so a second injection writes nothing |
| Injector.ShebangStaysFirst | src/shim/injector.rs:210-213 | when the first line is a shebang, the written content still starts with that line |
| Injector.ShimLinesClean | src/shim/injector.rs:12 | the lines of the shim block hold no line break and end in no carriage return |
| Injector.ShimStatements | src/shim/injector.rs:12 | the four statements of the shim are non-blank lines without the marker, so the removal loop skips them |
| Injector.InjectedLines | src/shim/injector.rs:241-254 | read back as lines, injected text is the original lines with the shim lines inserted at the insertion line |
| Injector.RemoveAfterInjectLines | src/shim/injector.rs:269-287 | after injection, removal keeps the lines before the insertion line and the shim's blank line, and drops the original lines after it up to their first blank line |
| Injector.RemoveAfterInject | src/shim/injector.rs:198-292 | removal after injection writes exactly those kept lines joined by line breaks, so it is no round trip |
| Injector.HelloSwallowed | src/shim/injector.rs:392-411 | injecting into `print('hello')` and removing again writes a lone line break: the shim is gone, and so is the original line |
| Injector.RemovalFixed | src/shim/injector.rs:261-292 | corrected removal: nothing is written exactly when the content lacks the marker; what is written ends in a line break |
| Injector.WithoutBlock | src/shim/injector.rs:269-287 | corrected removal: dropping whole blocks leaves at most as many lines |
| Injector.WithoutAbsentBlock | src/shim/injector.rs:269-287 | corrected removal: lines that never equal the block's second line are all kept |
| Injector.WithoutBlockAfter | src/shim/injector.rs:269-287 | corrected removal: lines before a block are kept and the block itself is dropped |
| Injector.WithoutInsertedBlock | src/shim/injector.rs:241-287 | corrected removal: inserting a block at any line and dropping it again gives the lines back |
| Injector.KeptFixedAfterInject | src/shim/injector.rs:241-287 | corrected removal: removing the inserted shim lines from marker-free lines gives back exactly the original lines |
| Injector.RemoveFixedAfterInject | src/shim/injector.rs:198-292 | corrected removal: removal after injection writes the original lines, each ended by a line break, so it is a round trip |
| Injector.HelloRestored | src/shim/injector.rs:392-411 | corrected removal: `print('hello')` comes back, ended by a line break |
| Injector.TwoComponents | src/shim/injector.rs:59-72 | a two-component path has a component `name` exactly when `name` is one of its two parts |
| Injector.DetectPythonEntryPoints | src/shim/injector.rs:36-104 | the walk loop reports the walked paths that are entry points, in walk order |
| Injector.Selected | src/shim/injector.rs:51-101 | at most one path is selected per walked entry |
| Injector.SelectedExactly | src/shim/injector.rs:51-101 | a path is selected exactly when some walked entry with that path is accepted |
| Injector.EntryPointsExactly | src/shim/injector.rs:36-104 | a path is reported exactly when some walked entry with that path is an entry point |
| Injector.NotSkipped | src/shim/injector.rs:59-74 | a two-component path whose parts are not skipped directory names is under no skipped directory |
| Injector.MainPyIsEntry | src/shim/injector.rs:82-86 | `main.py` outside skipped directories is an entry point whatever its content |
| Injector.GuardedScriptIsEntry | src/shim/injector.rs:88-99 | a `.py` file whose content has the `__main__` guard is an entry point |
| Injector.UpperCaseExtensionIsEntry | src/shim/injector.rs:89-91 | the extension is compared ignoring ASCII case: a guarded `.PY` file is an entry point |
| Injector.UnguardedScriptIsNotEntry | src/shim/injector.rs:82-100 | a `.py` file that is not a common entry file and has no guard is not an entry point |
| Injector.VenvIsSkipped | src/shim/injector.rs:58-74 | nothing under a `venv` directory is an entry point, not even `main.py` |
| Injector.EntryPointsOfTestProject | src/shim/injector.rs:353-372 | the walk of a project with `main.py` and a guarded `script.py` reports both files |
| EnvScanner.Unquote | src/analyzer/envscanner.rs:103-110 | a value wrapped in a matching pair of `"` or `'` loses exactly that pair; any other value is kept |
| EnvScanner.EachLine | src/analyzer/envscanner.rs:90 | one result per line |
| EnvScanner.Parsed | src/analyzer/envscanner.rs:90-118 | one entry per line of the file |
| EnvScanner.Numbered | src/analyzer/envscanner.rs:112-117 | at most one variable per line |
| EnvScanner.ParseEnvFile | src/analyzer/envscanner.rs:86-122 | the loop gives the variables of the lines that parse, numbered from 1 |
| EnvScanner.NumberedStep | src/analyzer/envscanner.rs:90-118 | one more line adds its variable, numbered with its 1-based line number, or nothing when it does not parse |
| EnvScanner.SkippedLines | src/analyzer/envscanner.rs:91-99 | a line gives nothing exactly when its trimmed text is empty, starts with `#` or has no `=` |
| EnvScanner.UnquoteOnePair | src/analyzer/envscanner.rs:104-107 | exactly one pair of quotes goes, even when the value holds more quotes |
| EnvScanner.ParseAssignment | src/analyzer/envscanner.rs:99-117 | a written `name=value` line of a trimmed name without `=` and a trimmed unquoted value parses back to that name and value |
| EnvScanner.CommentLine | src/analyzer/envscanner.rs:94-96 | a comment line gives nothing |
| EnvScanner.NumberedFromLines | src/analyzer/envscanner.rs:90-118 | every variable comes from a parsed line, carries its 1-based number and the file, and the numbers increase |
| EnvScanner.NumberedComplete | src/analyzer/envscanner.rs:90-118 | every parsed line gives a variable with its number |
| EnvScanner.VariablesSound | src/analyzer/envscanner.rs:86-122 | each variable of a file is the name and value of the line its number names, in line order |
| EnvScanner.VariablesComplete | src/analyzer/envscanner.rs:86-122 | every line that parses gives a variable |
| EnvScanner.FindApiRelatedVars | src/analyzer/envscanner.rs:138-165 | a variable is kept exactly when it is scanned and its upper-cased name contains a keyword, and no more are kept than scanned |
| EnvScanner.FirstFound | src/analyzer/envscanner.rs:266-273 | the pattern found is the first in the order tried that occurs in the line; none exactly when none occurs |
| EnvScanner.Between | src/analyzer/envscanner.rs:277-281 | a name is read only when the text holds it between two of the quotes, with no quote inside it |
| EnvScanner.QuotedName | src/analyzer/envscanner.rs:274-282 | the name read lacks the chosen quote and appears between two of them in the text |
| EnvScanner.ExtractEnvVarFromPython | src/analyzer/envscanner.rs:264-286 | a name is read only from a line holding one of the six patterns, and the line holds it between quotes; no pattern, no name |
| EnvScanner.ExtractEnvVarFromPythonFixed | src/analyzer/envscanner.rs:264-286 | corrected extraction: the quote is the one the matched pattern ends in; no pattern, no name |
| EnvScanner.IdentRun | src/analyzer/envscanner.rs:293-296 | the longest prefix of word characters |
| EnvScanner.ExtractEnvVarFromTypescript | src/analyzer/envscanner.rs:289-317 | with `process.env.` the name is the non-empty run of word characters after it; otherwise it is read between quotes after a bracket pattern; neither, no name |
| EnvScanner.ExtractEnvVarFromTypescriptFixed | src/analyzer/envscanner.rs:289-317 | corrected extraction: the bracket pattern's own quote is used; with `process.env.` it agrees with the code |
| EnvScanner.DottedNameFound | src/analyzer/envscanner.rs:291-300 | the run read after `process.env.` follows it in the line |
| EnvScannerExamples.ParseEnvFileTest | src/analyzer/envscanner.rs:375-392 | the test file gives three variables, on lines 1, 2 and 4, the last with an empty value |
| EnvScannerExamples.ApiRelatedAppend | src/analyzer/envscanner.rs:155-162 | the filter keeps the variables in order: filtering a concatenation concatenates the results |
| EnvScannerExamples.LowerCaseKeyIsApiRelated | src/analyzer/envscanner.rs:160 | the keyword comparison ignores case: `openai_key` is API-related |
| EnvScannerExamples.DebugIsNotApiRelated | src/analyzer/envscanner.rs:141-162 | `DEBUG` holds no keyword and is not API-related |
| EnvScannerExamples.DoubleQuoteWins | src/analyzer/envscanner.rs:275-281 | a double-quoted name is read whenever no `"` comes before it |
| EnvScannerExamples.SingleQuotedName | src/analyzer/envscanner.rs:275-281 | a single-quoted name is read when the text holds no `"` |
| EnvScannerExamples.BetweenFirstTwo | src/analyzer/envscanner.rs:277-281 | the name read is the text between the first and the second quote |
| EnvScannerExamples.BetweenNone | src/analyzer/envscanner.rs:277-283 | nothing is read exactly when the text holds fewer than two quotes |
| EnvScannerExamples.QuotedAfterCall | src/analyzer/envscanner.rs:274-281 | a quote-free call text, a quote, a name and the quote again give that name, when the quote is `"` or the text holds no `"` |
| EnvScannerExamples.PythonReads | src/analyzer/envscanner.rs:264-281 | when pattern `k` is the first of the six found and it first occurs at the end of `pre`, the name is read from the text starting at that occurrence |
| EnvScannerExamples.PythonPatternName | src/analyzer/envscanner.rs:264-281 | for each of the six patterns, found first at the end of `pre`, the name before the pattern's closing quote is read; a single-quote pattern needs a line with no `"` after it |
| EnvScannerExamples.PythonPatternNameFixed | src/analyzer/envscanner.rs:264-281 | corrected extraction: for each pattern the name before its closing quote is read, whatever quotes follow |
| EnvScannerExamples.GetenvDefaultMisread | src/analyzer/envscanner.rs:275 | `os.getenv('K',"d")` is read as `d` by the code and as `K` by the corrected extraction |
| EnvScannerExamples.PythonSubscriptExample | src/analyzer/envscanner.rs:395-399 | the first line of the Python extraction test gives `OPENAI_API_KEY` |
| EnvScannerExamples.PythonGetenvExample | src/analyzer/envscanner.rs:401-404 | the second line of the Python extraction test gives `BASE_URL` |
| EnvScannerExamples.TypescriptDottedRun | src/analyzer/envscanner.rs:291-300 | with `process.env.` first found at the end of `pre`, the result is the run of word characters after it, or nothing when the run is empty |
| EnvScannerExamples.TypescriptDotted | src/analyzer/envscanner.rs:291-300 | `process.env.NAME`, first found at the end of `pre`, gives the whole run of word characters after the dot |
| EnvScannerExamples.TypescriptEmptyRun | src/analyzer/envscanner.rs:291-300 | `process.env.` followed by no word character gives nothing, without trying the bracket patterns |
| EnvScannerExamples.TypescriptDottedExample | src/analyzer/envscanner.rs:409-412 | the first line of the TypeScript extraction test gives `OPENAI_API_KEY` |
| EnvScannerExamples.TypescriptBracketReads | src/analyzer/envscanner.rs:289-313 | without `process.env.`, when bracket pattern `k` is the first found and it first occurs at the end of `pre`, the name is read from the text starting at that occurrence |
| EnvScannerExamples.TypescriptBracket | src/analyzer/envscanner.rs:289-313 | without `process.env.`, for both bracket patterns found first at the end of `pre`, the name before the pattern's closing quote is read; the `'` pattern needs a line with no `"` after it |
| EnvScannerExamples.TypescriptBracketFixed | src/analyzer/envscanner.rs:289-313 | corrected extraction: for both bracket patterns the name before the closing quote is read, whatever quotes follow |
| EnvScannerExamples.BracketFallbackMisread | src/analyzer/envscanner.rs:305-306 | `process.env['K']` followed by an or-operator and `"x"` is read as `x` by the code and as `K` by the corrected extraction |
| EnvScannerExamples.TypescriptBracketExample | src/analyzer/envscanner.rs:414-417 | the second line of the TypeScript extraction test gives `BASE_URL` |
| Env.FirstSetting | src/env/mod.rs:17-27 | the line found sets the key and no earlier line does; none is found exactly when no line sets it |
| Env.AddOrUpdateKey | src/env/mod.rs:8-41 | the loop writes the updated content of the file's text, or of the empty text when the file is missing |
| Env.SetKey | src/env/mod.rs:44-46 | writes what `add_or_update_key` writes |
| Env.FirstSettingAt | src/env/mod.rs:21-27 | a line that sets the key with none before it is the one the update replaces |
| Env.Kept | src/env/mod.rs:56-62 | `remove_key` keeps at most as many lines as it reads |
| Env.RemoveKey | src/env/mod.rs:48-71 | content is written exactly when a removal is reported; a missing file reports none |
| Env.ValueOf | src/env/mod.rs:96-103 | a line gives a value exactly when it starts with `KEY=` or `export KEY=` |
| Env.GetValue | src/env/mod.rs:88-107 | the loop returns the value of the first line that sets the key, or nothing for a missing file |
| Env.ValueInFirst | src/env/mod.rs:96-106 | the value read is that of the first line setting the key, and there is none when no line sets it |
| Env.ValueIffHasKey | src/env/mod.rs:73-107 | `get_value` finds a value exactly when `has_key` holds |
| Env.EntryValue | src/env/mod.rs:23 | the written `KEY=value` line reads back as `value` |
| Env.AddThenRead | src/env/mod.rs:8-107 | after `add_or_update_key`, `has_key` holds and `get_value` reads the value written |
| Env.ReadBackExact | src/env/mod.rs:15 | lines joined by line breaks read back as the same lines when they are clean and the last is not empty |
| Env.UpdatedLinesTwice | src/env/mod.rs:17-35 | updating lines already updated with the same key and value changes nothing |
| Env.AddTwice | src/env/mod.rs:8-41 | on clean content whose last line is not blank, a second identical `add_or_update_key` writes what the first wrote |
| Env.RereadUpdated | src/env/mod.rs:15-37 | under those conditions the written content reads back as the updated lines |
| Env.AddTwiceDiffers | src/env/mod.rs:15-37 | `K=v` followed by a blank line is written as `K=v\n` and then as `K=v`: the update is not idempotent in general |
| Env.KeptExactly | src/env/mod.rs:56-62 | a line is kept exactly when it is one of the lines and does not set the key |
| Env.KeptShorter | src/env/mod.rs:56-64 | fewer lines are kept exactly when some line sets the key; otherwise all are kept |
| Env.RemovedIffHasKey | src/env/mod.rs:48-86 | `remove_key` reports a removal exactly when `has_key` holds |
| Env.RemoveThenAbsent | src/env/mod.rs:48-86 | after `remove_key`, `has_key` does not hold |
| Backup.New | src/backup/mod.rs:11-15 | the extension given, or `.bak` when none is |
| Backup.BackupPath | src/backup/mod.rs:17-33 | the backup lies in the file's own directory, and a path without a file name is its own backup path |
| Backup.BackupAfterExtension | src/backup/mod.rs:17-33 | a file with a non-empty extension gets the backup extension appended: `a.py` becomes `a.py.bak` |
| Backup.BackupWithoutExtension | src/backup/mod.rs:17-33 | a file without an extension gets the backup extension minus its first character: `a` becomes `a.bak` |
| Backup.BackupOfNoFileName | src/backup/mod.rs:17-33 | a path with no file name is its own backup path |
| Backup.BakAppended | src/backup/mod.rs:11-33 | with the default extension, a name not ending in `.` gets `.bak` appended, and removing it gives the path back |
| Backup.TrailingDot | src/backup/mod.rs:17-33 | `a.` has an empty extension, which is replaced: its backup is `a.bak` |
| Backup.FileSystem.constructor | src/backup/mod.rs:35-50 | the file system holds the files given |
| Backup.FileSystem.CreateBackup | src/backup/mod.rs:35-42 | returns and leaves the files as the specification function says |
| Backup.FileSystem.RestoreBackup | src/backup/mod.rs:44-50 | always succeeds and leaves the files as the specification function says |
| Backup.AfterCreate | src/backup/mod.rs:35-42 | success gives the backup path, which then exists; failure exactly when neither the backup nor the file exists; only the backup path is added |
| Backup.CreateNeverOverwrites | src/backup/mod.rs:37-39 | every existing file, an existing backup included, keeps its content |
| Backup.CreateCopies | src/backup/mod.rs:37-39 | without a backup, the only change is a new backup holding the file's content |
| Backup.RestoreOnlyWithBackup | src/backup/mod.rs:44-50 | without a backup nothing changes; with one the file gets its content and nothing else changes |
| Backup.RestoreGivesOriginal | src/backup/mod.rs:35-50 | back up, edit, back up again, edit again and restore: the file has its original content |
| ProjectConfig.DefaultMetadata | src/config/mod.rs:18-27 | no last-applied time, the crate version, no managed files and no backups |
| ProjectConfig.DefaultExcludesAnyDepth | src/config/mod.rs:57-69 | nine distinct default patterns, each starting with `**/` |
| ProjectConfig.New | src/config/mod.rs:88-110 | fails exactly when the key has neither the test nor the production prefix, with the invalid-key error |
| ProjectConfig.NewStoresInputs | src/config/mod.rs:88-110 | the key, proxy URL and providers are stored as given and every other field takes its default |
| ProjectConfig.NewManager | src/config/mod.rs:120-128 | the path given, or one ending in `/.promptguard.json` |
| ProjectConfig.Load | src/config/mod.rs:130-147 | a missing file gives the not-initialized error, a read or decode error passes through, and a decoded configuration is returned exactly when its env file is safe |
| ProjectConfig.LoadRejectsUnsafe | src/config/mod.rs:139-144 | a decoded configuration is rejected exactly when its env file holds `..` or is absolute, with the fixed message |
| ProjectConfig.NewLoads | src/config/mod.rs:88-147 | a configuration made by `new` passes the checks of `load` unchanged |
| ProjectConfig.EscapingPathsRefused | src/config/mod.rs:139-144 | every path with a `..` segment and every absolute path is refused |
| Output.MaskApiKey | src/output/mod.rs:40-48 | the mask has the key's length; it shows the first twelve characters of a longer key and `*` everywhere else |
| Output.MaskHidesSecret | src/output/mod.rs:40-48 | keys of one length that agree on the shown characters are masked alike |
| Output.MaskIdempotent | src/output/mod.rs:40-48 | masking a masked key changes nothing |
| Output.MaskShowsKind | src/output/mod.rs:40-48 | the mask of a valid key longer than twelve characters is a valid key of the same kind |
| Output.Hint | src/output/mod.rs:51-66 | three characters around `/`, the default answer in capitals |
| Output.ConfirmAnswer | src/output/mod.rs:51-66 | a blank line gives the default; otherwise yes exactly when the trimmed line is `y` or `yes` in any casing |
| Output.BlankGivesDefault | src/output/mod.rs:60-66 | a line of only whitespace gives the default |
| Output.TrimAround | src/output/mod.rs:60-62 | a word between whitespace is read as that word |
| Output.YesAccepted | src/output/mod.rs:60-66 | any casing of `y` or `yes`, with whitespace around, is a yes whatever the default |
| Output.OtherWordsRefused | src/output/mod.rs:60-66 | `yeah` is a no even when the default is yes |

## Left out

- Tree-sitter parsing and query execution are a parameter (`engine`). The model takes the matches it reports as given, and requires their byte spans to lie within the source.
- File I/O is not modelled: reading, writing and copying files, and their I/O errors. Contents are parameters and results, and the backup file system is a map. The read-error branches of `has_key` and `get_value` are not modelled.
- Directory walking (`WalkDir`, `max_depth`, `follow_links`) is a parameter: the walked entries as a sequence. The `HashSet` of `detect_python_entry_points` is modelled as a list in walk order, since set iteration order is unspecified.
- `detect_typescript_entry_points`, `inject_shims` and `remove_all_injections` of src/shim/injector.rs are not modelled: they read `package.json` as JSON and glue the modelled operations to the file system.
- `find_env_files`, `scan_env_variables`, `scan_python_env_usage` and `scan_typescript_env_usage` of src/analyzer/envscanner.rs are directory walks around the modelled line logic, and are not modelled.
- `generate_report` of src/analyzer/envscanner.rs is not modelled: its output follows `HashMap` iteration order.
- `list_backups` and `delete_all_backups` of src/backup/mod.rs use a directory walk and glob matching, and are not modelled.
- `ConfigManager::save`, `exists`, `delete` and `config_path` are not modelled: JSON encoding and file-system glue. `load` takes the decoded file as a parameter, and JSON decoding is not modelled.
- The command-line commands (src/commands, src/main.rs), the HTTP client (src/api), the benchmark, the shim generator (src/shim/generator.rs) and the project scanner (src/scanner) are not part of this model.
- The printing and terminal reading of src/output/mod.rs are not modelled; `confirm` is modelled from the line read.
- The current directory of `ConfigManager::new` and the crate version of `ConfigMetadata::default` are parameters.
- Paths are `/`-separated strings without normalisation: trailing slashes and `.` components are not collapsed as `std::path` does.
- Text is ASCII, one character per byte. `mask_api_key`'s slice `&key[..12]` and the byte offsets of captures therefore never split a character, and Unicode case mapping and whitespace are not modelled.
- The Python and TypeScript detectors and the TypeScript transformer handle only OpenAI, Anthropic, Cohere and HuggingFace: their `get_query_for_provider` (src/detector/python.rs:15-46, src/detector/typescript.rs:14-53, src/transformer/typescript.rs:15-46) has arms for those four providers only. Those matches are not exhaustive over the six variants of `Provider` (src/types.rs:6-13), so as written they do not compile; the model excludes Gemini and Groq there by the precondition `HasLiveQuery`. The Python transformer has arms for all six providers and is modelled for all six.
- EnvScanner.ParseEnvFile: requires that no line has a lone `"` or `'` as its whole value, on which the code panics.
- Backup.FileSystem.CreateBackup: requires `CanName`, as `backup_path` panics on an empty backup extension for a file without an extension; so do `Backup.FileSystem.RestoreBackup` and `Backup.AfterCreate`.
- PythonTransformer.ArgumentsPreserved: holds only for arguments that do not start with `(` nor end with `)`, because of the stripping described above; `TypeScriptTransformer.PropertiesPreserved` likewise for `{` and `}`.
- Edits.StitchKeepsEnds: holds only for pairwise-disjoint edit ranges (`Spliceable`). Nested constructor calls give nested ranges, which the code splices incorrectly; this is listed under Findings.
- Env.AddTwice: idempotence only for clean lines with a non-blank last line, as `Env.AddTwiceDiffers` shows it fails otherwise.
- Env.AddThenRead: only for a key without line breaks and a value without line breaks or a final carriage return; other values do not read back.
- Injector.RemoveAfterInject: states what removal after injection gives, not a round trip, since removal swallows the lines after the shim.

## Findings

| source | as written | input that shows it | evidently intended | confidence | as-written member | corrected member |
|---|---|---|---|---|---|---|
| src/transformer/python.rs:160-193 | the edits of all matches are sorted by descending start and spliced one after another; a call inside another call's arguments gives a range inside the outer range, and splicing the inner one first shifts the bytes the outer range points at | `f(g())` with the outer arguments `(g())` rewritten to `(g(),b)` and the inner `()` to `(k,b)`: the code writes `f(g(),b)b))` | only the outermost rewrite is applied, or the ranges are made disjoint, so the text outside the rewritten ranges is kept | medium; not executed | Edits.NestedEditsGarbled | Edits.ApplyOutermostIsStitch |
| src/analyzer/envscanner.rs:264-285 | the quote is `"` whenever the text from the pattern on holds a `"`, whatever quote the pattern opens | `os.getenv('K',"d")` gives `d` | the name between the quotes the pattern opens: `K` | high; not executed | EnvScannerExamples.GetenvDefaultMisread | EnvScannerExamples.PythonPatternNameFixed |
| src/analyzer/envscanner.rs:301-313 | the same quote choice after `process.env['` | `process.env['K']` followed by an or-operator and `"x"` gives `x` | `K` | high; not executed | EnvScannerExamples.BracketFallbackMisread | EnvScannerExamples.TypescriptBracketFixed |
| src/shim/injector.rs:269-290 | after a marker line, every line up to and including the first blank line is skipped; the injected shim block has no blank line after it, so the file's own lines after the shim are removed with it | `print('hello')`: injection and then removal writes a lone `\n` | removal drops exactly the six lines that injection inserted, so the file's lines come back | high; not executed | Injector.HelloSwallowed | Injector.RemoveFixedAfterInject |

The transformers, `EnvScanner.ExtractEnvVarFromPython` and `EnvScanner.ExtractEnvVarFromTypescript` keep the behaviour as written, since they model the shipped program. The corrected splice is `Edits.ApplyOutermost`; the corrected extractors are `EnvScanner.ExtractEnvVarFromPythonFixed` and `EnvScanner.ExtractEnvVarFromTypescriptFixed`. `Injector.RemovePythonShim` and `Injector.Removal` keep the behaviour as written too. The corrected removal is `Injector.RemovalFixed`, built on `Injector.KeptFixed`; `Injector.HelloRestored` checks it on the same input.
