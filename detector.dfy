/** `detect_all_providers` of src/detector/mod.rs: runs the detector of the file's
    language once per checked provider, keeps the providers with at least one
    instance, in order, and stops at the first error. */
module Detector {
  import opened Wrappers
  import opened Errors
  import opened Types
  import opened Syntax
  import DetectorCore
  import PythonDetector
  import TypeScriptDetector

  /** The providers the scan asks about, in the order it asks. */
  const CheckedProviders: seq<Provider> := [OpenAI, Anthropic, Cohere, HuggingFace]

  /** The detector query for one provider in one language. */
  function QueryFor(language: Language, p: Provider): Query
    requires HasLiveQuery(p)
  {
    if language == Python then PythonDetector.QueryForProvider(p) else TypeScriptDetector.QueryForProvider(p)
  }

  /** The parser's outcome for every provider in `ps` stays inside the source. */
  predicate Ready(source: string, language: Language, ps: seq<Provider>, engine: Engine) {
    forall i :: 0 <= i < |ps| ==>
      HasLiveQuery(ps[i]) && OutcomeWithin(engine(source, QueryFor(language, ps[i])), |source|)
  }

  /** What one detector returns: the Python detector for Python files, the TypeScript
      detector for TypeScript and JavaScript files. */
  function DetectFor(path: string, source: string, language: Language, p: Provider, engine: Engine)
    : Result<DetectionResult>
    requires HasLiveQuery(p) && OutcomeWithin(engine(source, QueryFor(language, p)), |source|)
  {
    if language == Python then
      PythonDetector.Expected(path, source, p, engine(source, QueryFor(language, p)))
    else
      DetectorCore.Expected(path, source, p, TypeScriptDetector.Config(), TypeScriptDetector.CheckHasBaseUrl,
                            engine(source, QueryFor(language, p)))
  }

  /** The scan over the providers `ps`, given each one's detector result `outs[i]`,
      in order: the first error, or the pairs of the providers whose result has an
      instance. */
  function Aggregate(ps: seq<Provider>, outs: seq<Result<DetectionResult>>): Result<seq<(Provider, DetectionResult)>>
    requires |outs| == |ps|
  {
    if ps == [] then Ok([])
    else
      match Aggregate(ps[..|ps| - 1], outs[..|ps| - 1])
      case Err(e) => Err(e)
      case Ok(acc) =>
        match outs[|ps| - 1]
        case Err(e) => Err(e)
        case Ok(res) => Ok(if res.instances == [] then acc else acc + [(ps[|ps| - 1], res)])
  }

  /** The detector result of each checked provider. */
  function Outcomes(path: string, source: string, language: Language, engine: Engine)
    : (outs: seq<Result<DetectionResult>>)
    requires Ready(source, language, CheckedProviders, engine)
    ensures |outs| == |CheckedProviders|
    ensures forall i :: 0 <= i < |outs| ==> outs[i] == DetectFor(path, source, language, CheckedProviders[i], engine)
  {
    seq(|CheckedProviders|, i requires 0 <= i < |CheckedProviders| =>
      DetectFor(path, source, language, CheckedProviders[i], engine))
  }

  /** What `detect_all_providers` returns: nothing for an unsupported file, otherwise
      the scan over the checked providers. */
  function Expected(path: string, source: string, engine: Engine): Result<seq<(Provider, DetectionResult)>>
    requires LanguageOfPath(path).Some? ==>
      Ready(source, LanguageOfPath(path).value, CheckedProviders, engine)
  {
    match LanguageOfPath(path)
    case None => Ok([])
    case Some(language) =>
      Aggregate(CheckedProviders, Outcomes(path, source, language, engine))
  }

  /** `detect_all_providers`, with the file's content given. */
  method DetectAllProviders(path: string, source: string, engine: Engine)
    returns (r: Result<seq<(Provider, DetectionResult)>>)
    requires LanguageOfPath(path).Some? ==>
      Ready(source, LanguageOfPath(path).value, CheckedProviders, engine)
    ensures r == Expected(path, source, engine)
  {
    var language := LanguageOfPath(path);
    if language.None? {
      return Ok([]);
    }
    r := Scan(path, source, language.value, engine);
  }

  /** The loop over the checked providers, returning at the first error. */
  method Scan(path: string, source: string, language: Language, engine: Engine)
    returns (r: Result<seq<(Provider, DetectionResult)>>)
    requires Ready(source, language, CheckedProviders, engine)
    ensures r == Aggregate(CheckedProviders, Outcomes(path, source, language, engine))
  {
    ghost var outs := Outcomes(path, source, language, engine);
    var providers := CheckedProviders;
    var results: seq<(Provider, DetectionResult)> := [];
    var i := 0;
    while i < |providers|
      invariant 0 <= i <= |providers|
      invariant Aggregate(providers[..i], outs[..i]) == Ok(results)
    {
      var p := providers[i];
      var result := DetectOne(path, source, language, p, engine);
      assert result == outs[i];
      AggregateStep(providers, outs, i);
      if result.Err? {
        AggregateErrSticks(providers, outs, i + 1);
        return Err(result.error);
      }
      if result.value.instances != [] {
        results := results + [(p, result.value)];
      }
      i := i + 1;
    }
    assert providers[..i] == providers && outs[..i] == outs;
    return Ok(results);
  }

  /** One provider's detector run, chosen by language. */
  method DetectOne(path: string, source: string, language: Language, p: Provider, engine: Engine)
    returns (result: Result<DetectionResult>)
    requires HasLiveQuery(p) && OutcomeWithin(engine(source, QueryFor(language, p)), |source|)
    ensures result == DetectFor(path, source, language, p, engine)
  {
    if language == TypeScript || language == JavaScript {
      result := TypeScriptDetector.DetectInFile(path, source, p, engine);
    } else {
      result := PythonDetector.DetectInFile(path, source, p, engine);
    }
  }

  /** The scan over one more provider. */
  lemma AggregateStep(ps: seq<Provider>, outs: seq<Result<DetectionResult>>, i: nat)
    requires |outs| == |ps| && i < |ps|
    ensures Aggregate(ps[..i + 1], outs[..i + 1]) ==
      match Aggregate(ps[..i], outs[..i])
      case Err(e) => Err(e)
      case Ok(acc) =>
        match outs[i]
        case Err(e) => Err(e)
        case Ok(res) => Ok(if res.instances == [] then acc else acc + [(ps[i], res)])
  {
    assert ps[..i + 1][..i] == ps[..i];
    assert outs[..i + 1][..i] == outs[..i];
  }

  /** An error over a prefix of the providers is the error over all of them: the scan
      stops there. */
  lemma {:induction false} AggregateErrSticks(ps: seq<Provider>, outs: seq<Result<DetectionResult>>, n: nat)
    requires |outs| == |ps| && n <= |ps|
    ensures Aggregate(ps[..n], outs[..n]).Err? ==> Aggregate(ps, outs) == Aggregate(ps[..n], outs[..n])
  {
    if n < |ps| {
      AggregateErrSticks(ps[..|ps| - 1], outs[..|ps| - 1], n);
      assert ps[..|ps| - 1][..n] == ps[..n];
      assert outs[..|ps| - 1][..n] == outs[..n];
    } else {
      assert ps[..n] == ps && outs[..n] == outs;
    }
  }

  /** The scan fails exactly when some provider's detector fails, and then with the
      error of the first that does. */
  lemma {:induction false} AggregateError(ps: seq<Provider>, outs: seq<Result<DetectionResult>>)
    requires |outs| == |ps|
    ensures Aggregate(ps, outs).Ok? <==> forall i :: 0 <= i < |outs| ==> outs[i].Ok?
    ensures Aggregate(ps, outs).Err? ==>
      exists i :: 0 <= i < |outs| && outs[i] == Err(Aggregate(ps, outs).error) &&
        forall j :: 0 <= j < i ==> outs[j].Ok?
  {
    if ps != [] {
      var n := |ps| - 1;
      AggregateError(ps[..n], outs[..n]);
      assert forall i :: 0 <= i < n ==> outs[..n][i] == outs[i];
      var r := Aggregate(ps, outs);
      if Aggregate(ps[..n], outs[..n]).Err? {
        var i :| 0 <= i < n && outs[..n][i] == Err(Aggregate(ps[..n], outs[..n]).error) &&
          forall j :: 0 <= j < i ==> outs[..n][j].Ok?;
        assert outs[i] == Err(r.error);
      } else if r.Err? {
        assert outs[n] == Err(r.error);
      }
    }
  }

  /** The positions of the results that have an instance, in increasing order. */
  function Reported(outs: seq<Result<DetectionResult>>): (idx: seq<nat>)
    ensures forall k :: 0 <= k < |idx| ==> idx[k] < |outs|
    ensures forall k, l :: 0 <= k < l < |idx| ==> idx[k] < idx[l]
    ensures forall i :: 0 <= i < |outs| ==> (i in idx <==> outs[i].Ok? && outs[i].value.instances != [])
  {
    if outs == [] then []
    else
      var n := |outs| - 1;
      var rest := Reported(outs[..n]);
      assert forall i :: 0 <= i < n ==> outs[..n][i] == outs[i];
      if outs[n].Ok? && outs[n].value.instances != [] then rest + [n] else rest
  }

  /** A successful scan pairs each reported position with its provider and result:
      the pairs are the providers whose result has an instance, in provider order,
      each with its own result. */
  lemma {:induction false} AggregateReported(ps: seq<Provider>, outs: seq<Result<DetectionResult>>)
    requires |outs| == |ps|
    requires Aggregate(ps, outs).Ok?
    ensures var rs := Aggregate(ps, outs).value;
      var idx := Reported(outs);
      |rs| == |idx| &&
      forall k :: 0 <= k < |rs| ==> rs[k] == (ps[idx[k]], outs[idx[k]].value)
  {
    if ps != [] {
      var n := |ps| - 1;
      AggregateReported(ps[..n], outs[..n]);
      var acc := Aggregate(ps[..n], outs[..n]).value;
      var rs := Aggregate(ps, outs).value;
      var before := Reported(outs[..n]);
      assert forall k :: 0 <= k < |before| ==> ps[..n][before[k]] == ps[before[k]] && outs[..n][before[k]] == outs[before[k]];
    }
  }

  /** With providers listed once each, no provider appears twice among the pairs. */
  lemma AggregateDistinct(ps: seq<Provider>, outs: seq<Result<DetectionResult>>)
    requires |outs| == |ps|
    requires Aggregate(ps, outs).Ok?
    requires forall i, j :: 0 <= i < j < |ps| ==> ps[i] != ps[j]
    ensures var rs := Aggregate(ps, outs).value;
      forall k, l :: 0 <= k < l < |rs| ==> rs[k].0 != rs[l].0
  {
    AggregateReported(ps, outs);
  }

  /** With providers listed once each, a provider of a successful scan is reported
      exactly when its result has an instance. */
  lemma ReportedExactly(ps: seq<Provider>, outs: seq<Result<DetectionResult>>, i: nat)
    requires |outs| == |ps| && i < |ps|
    requires Aggregate(ps, outs).Ok?
    requires forall i, j :: 0 <= i < j < |ps| ==> ps[i] != ps[j]
    ensures outs[i].Ok?
    ensures (ps[i], outs[i].value) in Aggregate(ps, outs).value <==> outs[i].value.instances != []
  {
    AggregateError(ps, outs);
    AggregateReported(ps, outs);
    var rs := Aggregate(ps, outs).value;
    var idx := Reported(outs);
    if outs[i].value.instances != [] {
      var k :| 0 <= k < |idx| && idx[k] == i;
      assert rs[k] == (ps[i], outs[i].value);
    }
    if (ps[i], outs[i].value) in rs {
      var k :| 0 <= k < |rs| && rs[k] == (ps[i], outs[i].value);
      assert ps[idx[k]] == ps[i];
      assert idx[k] in idx;
    }
  }

  /** Every reported result has an instance. */
  lemma ReportedNonEmpty(ps: seq<Provider>, outs: seq<Result<DetectionResult>>)
    requires |outs| == |ps|
    requires Aggregate(ps, outs).Ok?
    ensures forall pr :: pr in Aggregate(ps, outs).value ==> pr.1.instances != []
  {
    AggregateReported(ps, outs);
    var idx := Reported(outs);
    assert forall k :: 0 <= k < |idx| ==> idx[k] in idx;
  }

  /** The checked providers are the four with a live query, each once. */
  lemma CheckedProvidersDistinct()
    ensures forall i, j :: 0 <= i < j < |CheckedProviders| ==> CheckedProviders[i] != CheckedProviders[j]
    ensures forall p :: p in CheckedProviders <==> HasLiveQuery(p)
  {
  }

  /** A file of no supported language has nothing to report and is never read as
      source. */
  lemma UnsupportedFileEmpty(path: string, source: string, engine: Engine)
    requires LanguageOfPath(path).None?
    ensures Expected(path, source, engine) == Ok([])
  {
  }
}
