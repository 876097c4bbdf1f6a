/** The provider registry of src/detector/registry.rs: one `ProviderInfo` per provider,
    and lookups by package name and by API URL that return the first entry, in table
    order, that accepts the input. */
module Registry {
  import opened Wrappers
  import opened Strings
  import opened Types

  datatype ProviderInfo = ProviderInfo(
    provider: Provider,
    pythonPackages: seq<string>,
    typescriptPackages: seq<string>,
    apiEndpoints: seq<string>,
    baseUrlParam: string)

  /** `PROVIDERS` */
  const Providers: seq<ProviderInfo> := [
    ProviderInfo(OpenAI, ["openai"], ["openai"], ["api.openai.com", "openai.azure.com"], "base_url"),
    ProviderInfo(Anthropic, ["anthropic"], ["@anthropic-ai/sdk"], ["api.anthropic.com"], "base_url"),
    ProviderInfo(Cohere, ["cohere"], ["cohere-ai"], ["api.cohere.ai", "api.cohere.com"], "base_url"),
    ProviderInfo(HuggingFace, ["huggingface_hub"], ["@huggingface/inference"],
                 ["huggingface.co", "api-inference.huggingface.co"], "base_url"),
    ProviderInfo(Gemini, ["google.genai", "google.generativeai"], ["@google/genai", "@google/generative-ai"],
                 ["generativelanguage.googleapis.com", "ai.google.dev"], "base_url"),
    ProviderInfo(Groq, ["groq"], ["groq-sdk"], ["api.groq.com"], "base_url")
  ]

  /** `items.iter().any(accept)` */
  function Any(items: seq<string>, accept: string -> bool): (b: bool)
    ensures b <==> exists i :: 0 <= i < |items| && accept(items[i])
  {
    if items == [] then false
    else if accept(items[0]) then true
    else
      var b := Any(items[1..], accept);
      assert forall i :: 1 <= i < |items| ==> items[i] == items[1..][i - 1];
      b
  }

  /** `PROVIDERS.iter().find(accept)` over a part of the table. */
  function Find(infos: seq<ProviderInfo>, accept: ProviderInfo -> bool): (r: Option<ProviderInfo>)
    ensures r.Some? ==> exists i :: 0 <= i < |infos| && infos[i] == r.value && accept(infos[i]) &&
                                  forall j :: 0 <= j < i ==> !accept(infos[j])
    ensures r.None? <==> forall i :: 0 <= i < |infos| ==> !accept(infos[i])
  {
    if infos == [] then None
    else if accept(infos[0]) then Some(infos[0])
    else
      var r := Find(infos[1..], accept);
      assert forall i :: 1 <= i < |infos| ==> infos[i] == infos[1..][i - 1];
      if r.Some? then
        var i :| 0 <= i < |infos[1..]| && infos[1..][i] == r.value && accept(infos[1..][i]) &&
          forall j :: 0 <= j < i ==> !accept(infos[1..][j]);
        assert infos[i + 1] == r.value;
        r
      else r
  }

  /** A Python import of `package` belongs to the registry package `pkg` when it is
      `pkg` itself or a submodule of it. */
  predicate PythonPackageMatches(package: string, pkg: string) {
    package == pkg || StartsWith(package, pkg + ".")
  }

  predicate AcceptsPythonPackage(info: ProviderInfo, package: string) {
    Any(info.pythonPackages, pkg => PythonPackageMatches(package, pkg))
  }

  /** `from_python_package` */
  function FromPythonPackage(package: string): (r: Option<ProviderInfo>)
    ensures r.Some? ==> r.value in Providers
    ensures r.Some? ==>
              exists i :: 0 <= i < |r.value.pythonPackages| && PythonPackageMatches(package, r.value.pythonPackages[i])
    ensures r.None? <==> forall i :: 0 <= i < |Providers| ==> !AcceptsPythonPackage(Providers[i], package)
  {
    Find(Providers, info => AcceptsPythonPackage(info, package))
  }

  /** `from_typescript_package`: exact names only. */
  function FromTypeScriptPackage(package: string): (r: Option<ProviderInfo>)
    ensures r.Some? ==> r.value in Providers && package in r.value.typescriptPackages
    ensures r.None? <==> forall i :: 0 <= i < |Providers| ==> package !in Providers[i].typescriptPackages
  {
    Find(Providers, (info: ProviderInfo) => Any(info.typescriptPackages, (pkg: string) => pkg == package))
  }

  predicate AcceptsUrl(info: ProviderInfo, url: string) {
    Any(info.apiEndpoints, endpoint => Contains(url, endpoint))
  }

  /** `from_api_url`: the first entry with an endpoint that occurs in the URL. */
  function FromApiUrl(url: string): (r: Option<ProviderInfo>)
    ensures r.Some? ==> exists k :: 0 <= k < |r.value.apiEndpoints| && Contains(url, r.value.apiEndpoints[k])
    ensures r.Some? ==>
              exists i :: 0 <= i < |Providers| && Providers[i] == r.value &&
                          forall j :: 0 <= j < i ==> !AcceptsUrl(Providers[j], url)
    ensures r.None? <==> forall i :: 0 <= i < |Providers| ==> !AcceptsUrl(Providers[i], url)
  {
    Find(Providers, info => AcceptsUrl(info, url))
  }

  /** `all_provider_names` */
  function AllProviderNames(): (names: seq<string>)
    ensures |names| == |Providers|
    ensures forall i :: 0 <= i < |Providers| ==> names[i] == ProviderAsStr(Providers[i].provider)
  {
    seq(|Providers|, i requires 0 <= i < |Providers| => ProviderAsStr(Providers[i].provider))
  }

  /** The table lists the six providers once each, in declaration order. */
  lemma TableOrder()
    ensures |Providers| == 6
    ensures Providers[0].provider == OpenAI && Providers[1].provider == Anthropic &&
            Providers[2].provider == Cohere && Providers[3].provider == HuggingFace &&
            Providers[4].provider == Gemini && Providers[5].provider == Groq
  {
  }

  /** Each provider has exactly one entry. */
  lemma EachProviderOnce(p: Provider)
    ensures exists i :: 0 <= i < |Providers| && Providers[i].provider == p
    ensures forall i, j :: (0 <= i < |Providers| && 0 <= j < |Providers| &&
                            Providers[i].provider == p && Providers[j].provider == p) ==> i == j
  {
    TableOrder();
    match p {
      case OpenAI => assert Providers[0].provider == p;
      case Anthropic => assert Providers[1].provider == p;
      case Cohere => assert Providers[2].provider == p;
      case HuggingFace => assert Providers[3].provider == p;
      case Gemini => assert Providers[4].provider == p;
      case Groq => assert Providers[5].provider == p;
    }
  }

  /** The names are the `as_str` names in table order. */
  lemma AllNames()
    ensures AllProviderNames() == ["openai", "anthropic", "cohere", "huggingface", "gemini", "groq"]
  {
    TableOrder();
  }

  /** A submodule import finds the provider of its parent package. */
  lemma GenaiSubmodule()
    ensures FromPythonPackage("google.genai.types").Some?
    ensures FromPythonPackage("google.genai.types").value.provider == Gemini
  {
    var package := "google.genai.types";
    GenaiAccepts(package);
    NoOtherEntryAcceptsGenai(package);
    PythonFirst(package, 4);
  }

  lemma GenaiAccepts(package: string)
    requires package == "google.genai.types"
    ensures AcceptsPythonPackage(Providers[4], package)
  {
    assert package == ("google.genai" + ".") + "types";
    assert PythonPackageMatches(package, Providers[4].pythonPackages[0]);
  }

  /** The lookup returns entry `i` when it is the first that accepts the package. */
  lemma PythonFirst(package: string, i: nat)
    requires i < |Providers| && AcceptsPythonPackage(Providers[i], package)
    requires forall j :: 0 <= j < |Providers| && j != i ==> !AcceptsPythonPackage(Providers[j], package)
    ensures FromPythonPackage(package) == Some(Providers[i])
  {
    var r := FromPythonPackage(package);
    var i' :| 0 <= i' < |Providers| && Providers[i'] == r.value && AcceptsPythonPackage(Providers[i'], package);
  }

  /** `t` is not a prefix of `s` when they differ at a position both have. */
  lemma DifferAt(s: string, t: string, k: nat)
    requires k < |s| && k < |t| && s[k] != t[k]
    ensures !StartsWith(s, t)
  {
    if |t| <= |s| {
      assert s[..|t|][k] == s[k];
    }
  }

  lemma NoOtherEntryAcceptsGenai(package: string)
    requires package == "google.genai.types"
    ensures forall j :: 0 <= j < |Providers| && j != 4 ==> !AcceptsPythonPackage(Providers[j], package)
  {
    DifferAt(package, "openai" + ".", 0);
    DifferAt(package, "anthropic" + ".", 0);
    DifferAt(package, "cohere" + ".", 0);
    DifferAt(package, "huggingface_hub" + ".", 0);
    DifferAt(package, "groq" + ".", 1);
  }

  /** A bare parent package matches no entry: only the package itself and its
      submodules match, never its parents. */
  lemma BareParentMatchesNothing()
    ensures FromPythonPackage("google").None?
  {
    var package := "google";
    DifferAt(package, "openai" + ".", 0);
    DifferAt(package, "anthropic" + ".", 0);
    DifferAt(package, "cohere" + ".", 0);
    DifferAt(package, "huggingface_hub" + ".", 0);
    DifferAt(package, "groq" + ".", 1);
    assert !StartsWith(package, "google.genai" + ".");
    assert !StartsWith(package, "google.generativeai" + ".");
    NoEntryAccepts(package);
  }

  /** An unknown package finds nothing. */
  lemma UnknownPackage()
    ensures FromPythonPackage("unknown_package").None?
  {
    var package := "unknown_package";
    DifferAt(package, "openai" + ".", 0);
    DifferAt(package, "anthropic" + ".", 0);
    DifferAt(package, "cohere" + ".", 0);
    DifferAt(package, "huggingface_hub" + ".", 0);
    DifferAt(package, "google.genai" + ".", 0);
    DifferAt(package, "google.generativeai" + ".", 0);
    DifferAt(package, "groq" + ".", 0);
    NoEntryAccepts(package);
  }

  /** A package that is none of the registry packages and starts with none of them
      followed by a dot finds nothing. */
  lemma NoEntryAccepts(package: string)
    requires forall i, k :: 0 <= i < |Providers| && 0 <= k < |Providers[i].pythonPackages| ==>
      package != Providers[i].pythonPackages[k] && !StartsWith(package, Providers[i].pythonPackages[k] + ".")
    ensures FromPythonPackage(package).None?
  {
    forall i | 0 <= i < |Providers| ensures !AcceptsPythonPackage(Providers[i], package) {
      var pkgs := Providers[i].pythonPackages;
      assert forall k :: 0 <= k < |pkgs| ==> !PythonPackageMatches(package, pkgs[k]);
    }
  }

  /** A TypeScript lookup by a Python-style submodule name finds nothing: names must
      match exactly. */
  lemma TypeScriptExactOnly()
    ensures FromTypeScriptPackage("@anthropic-ai/sdk").Some?
    ensures FromTypeScriptPackage("@anthropic-ai/sdk").value.provider == Anthropic
    ensures FromTypeScriptPackage("openai/resources").None?
  {
    AnthropicSdk("@anthropic-ai/sdk");
    SubpathUnknown("openai/resources");
  }

  lemma AnthropicSdk(package: string)
    requires package == "@anthropic-ai/sdk"
    ensures FromTypeScriptPackage(package).Some? && FromTypeScriptPackage(package).value.provider == Anthropic
  {
    assert package in Providers[1].typescriptPackages;
    assert package !in Providers[0].typescriptPackages;
    var r := FromTypeScriptPackage(package);
    assert r.value == Providers[1];
  }

  lemma SubpathUnknown(package: string)
    requires package == "openai/resources"
    ensures FromTypeScriptPackage(package).None?
  {
    forall i | 0 <= i < |Providers| ensures package !in Providers[i].typescriptPackages {
      TypeScriptNameLengths(i);
      OtherLengths(package, Providers[i].typescriptPackages);
    }
  }

  lemma TypeScriptNameLengths(i: nat)
    requires i < |Providers|
    ensures forall k :: 0 <= k < |Providers[i].typescriptPackages| ==> |Providers[i].typescriptPackages[k]| != 16
  {
  }

  /** A name is none of the names whose lengths differ from its own. */
  lemma OtherLengths(name: string, names: seq<string>)
    requires forall k :: 0 <= k < |names| ==> |names[k]| != |name|
    ensures name !in names
  {
  }

  /** The OpenAI endpoint in a URL selects OpenAI. */
  lemma OpenAiUrl()
    ensures FromApiUrl("https://api.openai.com/v1/chat").Some?
    ensures FromApiUrl("https://api.openai.com/v1/chat").value.provider == OpenAI
  {
    OpenAiEndpoint("https://", "api.openai.com", "/v1/chat", "https://api.openai.com/v1/chat");
  }

  lemma OpenAiEndpoint(a: string, e: string, b: string, url: string)
    requires e == "api.openai.com" && url == a + e + b
    ensures FromApiUrl(url).Some? && FromApiUrl(url).value.provider == OpenAI
  {
    ContainsMiddle(a, e, b);
    assert Providers[0].apiEndpoints[0] == e;
    assert AcceptsUrl(Providers[0], url);
  }
}
