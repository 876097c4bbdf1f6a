/** `detect_in_file_generic` of src/detector/core.rs: one detection instance for every
    capture of the site name, with the base-URL flag taken from the match's `args`. */
module DetectorCore {
  import opened Wrappers
  import opened Errors
  import opened Types
  import opened Syntax

  /** `DetectorConfig`: the grammar, the language reported, the site capture's name. */
  datatype DetectorConfig = DetectorConfig(grammar: Grammar, language: Language, captureName: string)

  /** The language-specific base-URL check, given the text of the `args` node. */
  type BaseUrlCheck = (string, Provider) -> (bool, Option<string>)

  /** The flag of a match: the check on its first `args` capture, or `(false, None)`. */
  function Flag(source: string, m: QueryMatch, p: Provider, check: BaseUrlCheck): (bool, Option<string>)
    requires CapturesWithin(m, |source|)
  {
    match FindCapture(m.captures, "args")
    case None => (false, None)
    case Some(c) =>
      FoundCaptureWithin(m, |source|, "args");
      check(NodeText(source, c.node), p)
  }

  /** The instance for one site capture: 1-based line and column of its start. */
  function InstanceAt(path: string, c: Capture, p: Provider, language: Language, flag: (bool, Option<string>)): DetectionInstance {
    DetectionInstance(path, c.node.row + 1, c.node.column + 1, p, language, flag.0, flag.1)
  }

  /** How many of the captures carry the name. */
  function NamedCount(caps: seq<Capture>, name: string): nat {
    if caps == [] then 0
    else NamedCount(caps[..|caps| - 1], name) + (if caps[|caps| - 1].name == name then 1 else 0)
  }

  /** The instances the captures `caps` of one match give, in capture order, with the
      flag `flag` of that match. */
  function SiteInstances(path: string, caps: seq<Capture>, p: Provider, config: DetectorConfig, flag: (bool, Option<string>))
    : (r: seq<DetectionInstance>)
    ensures |r| == NamedCount(caps, config.captureName)
  {
    if caps == [] then []
    else
      var c := caps[|caps| - 1];
      var rest := SiteInstances(path, caps[..|caps| - 1], p, config, flag);
      if c.name == config.captureName then rest + [InstanceAt(path, c, p, config.language, flag)] else rest
  }

  /** Every site instance carries the path, a 1-based position, the provider, the
      configured language and the match's flag. */
  lemma {:induction false} SiteInstancesFields(path: string, caps: seq<Capture>, p: Provider, config: DetectorConfig, flag: (bool, Option<string>))
    ensures forall inst :: inst in SiteInstances(path, caps, p, config, flag) ==>
      inst.filePath == path && inst.line >= 1 && inst.column >= 1 && inst.provider == p &&
      inst.language == config.language && inst.hasBaseUrl == flag.0 && inst.currentBaseUrl == flag.1
  {
    if caps != [] {
      var init := caps[..|caps| - 1];
      var c := caps[|caps| - 1];
      SiteInstancesFields(path, init, p, config, flag);
      var tail := if c.name == config.captureName then [InstanceAt(path, c, p, config.language, flag)] else [];
      assert SiteInstances(path, caps, p, config, flag) == SiteInstances(path, init, p, config, flag) + tail;
    }
  }

  /** The site instances are exactly the instances of the captures with the site name:
      each instance comes from one, and each one gives an instance. */
  lemma {:induction false} SiteInstancesMembers(path: string, caps: seq<Capture>, p: Provider, config: DetectorConfig, flag: (bool, Option<string>))
    ensures forall inst :: inst in SiteInstances(path, caps, p, config, flag) ==>
      exists c :: c in caps && c.name == config.captureName && inst == InstanceAt(path, c, p, config.language, flag)
    ensures forall c :: c in caps && c.name == config.captureName ==>
      InstanceAt(path, c, p, config.language, flag) in SiteInstances(path, caps, p, config, flag)
  {
    if caps != [] {
      var init := caps[..|caps| - 1];
      var c := caps[|caps| - 1];
      SiteInstancesMembers(path, init, p, config, flag);
      var tail := if c.name == config.captureName then [InstanceAt(path, c, p, config.language, flag)] else [];
      var before := SiteInstances(path, init, p, config, flag);
      assert SiteInstances(path, caps, p, config, flag) == before + tail;
      assert forall x :: x in before ==> x in before + tail;
      assert forall x :: x in caps ==> x in init || x == c;
      assert forall x :: x in init ==> x in caps;
      forall inst | inst in before + tail
        ensures exists x :: x in caps && x.name == config.captureName && inst == InstanceAt(path, x, p, config.language, flag)
      {
        if inst in before {
          var x :| x in init && x.name == config.captureName && inst == InstanceAt(path, x, p, config.language, flag);
          assert x in caps;
        } else {
          assert c in caps;
        }
      }
    }
  }

  /** The instances of all matches, match by match. */
  function Instances(path: string, source: string, p: Provider, config: DetectorConfig, check: BaseUrlCheck, ms: seq<QueryMatch>)
    : (r: seq<DetectionInstance>)
    requires MatchesWithin(ms, |source|)
  {
    if ms == [] then []
    else
      var m := ms[|ms| - 1];
      MatchesWithinPrefix(ms, |ms| - 1, |source|);
      Instances(path, source, p, config, check, ms[..|ms| - 1]) +
      SiteInstances(path, m.captures, p, config, Flag(source, m, p, check))
  }

  /** Every instance carries the path, a 1-based position, the provider and the
      configured language. */
  lemma {:induction false} InstancesFields(path: string, source: string, p: Provider, config: DetectorConfig, check: BaseUrlCheck, ms: seq<QueryMatch>)
    requires MatchesWithin(ms, |source|)
    ensures forall inst :: inst in Instances(path, source, p, config, check, ms) ==>
      inst.filePath == path && inst.line >= 1 && inst.column >= 1 &&
      inst.provider == p && inst.language == config.language
  {
    if ms != [] {
      var m := ms[|ms| - 1];
      MatchesWithinPrefix(ms, |ms| - 1, |source|);
      InstancesFields(path, source, p, config, check, ms[..|ms| - 1]);
      SiteInstancesFields(path, m.captures, p, config, Flag(source, m, p, check));
    }
  }

  /** How many site captures all matches hold together. */
  function TotalNamed(ms: seq<QueryMatch>, name: string): nat {
    if ms == [] then 0
    else TotalNamed(ms[..|ms| - 1], name) + NamedCount(ms[|ms| - 1].captures, name)
  }

  /** What `detect_in_file_generic` returns for each outcome of the parse. */
  function Expected(path: string, source: string, p: Provider, config: DetectorConfig, check: BaseUrlCheck, o: ParseOutcome)
    : Result<DetectionResult>
    requires OutcomeWithin(o, |source|)
  {
    match o
    case GrammarError => Err(Parse("Failed to set language"))
    case NoTree => Err(Parse("Failed to parse " + LanguageAsStr(config.language) + " file"))
    case QueryError(e) => Err(Parse("Query error: " + e))
    case Matches(ms) => Ok(DetectionResult(Instances(path, source, p, config, check, ms)))
  }

  /** The instances over one more match are those before it followed by its own. */
  lemma InstancesStep(path: string, source: string, p: Provider, config: DetectorConfig, check: BaseUrlCheck, ms: seq<QueryMatch>, i: nat)
    requires MatchesWithin(ms, |source|) && i < |ms|
    ensures MatchesWithin(ms[..i], |source|) && MatchesWithin(ms[..i + 1], |source|)
    ensures Instances(path, source, p, config, check, ms[..i + 1]) ==
      Instances(path, source, p, config, check, ms[..i]) +
      SiteInstances(path, ms[i].captures, p, config, Flag(source, ms[i], p, check))
  {
    MatchesWithinPrefix(ms, i, |source|);
    MatchesWithinPrefix(ms, i + 1, |source|);
    assert ms[..i + 1][..i] == ms[..i];
    assert ms[..i + 1][i] == ms[i];
  }

  /** The site instances over one more capture. */
  lemma SiteInstancesStep(path: string, caps: seq<Capture>, p: Provider, config: DetectorConfig, flag: (bool, Option<string>), j: nat)
    requires j < |caps|
    ensures SiteInstances(path, caps[..j + 1], p, config, flag) ==
      SiteInstances(path, caps[..j], p, config, flag) +
      (if caps[j].name == config.captureName then [InstanceAt(path, caps[j], p, config.language, flag)] else [])
  {
    assert caps[..j + 1][..j] == caps[..j];
    assert caps[..j + 1][j] == caps[j];
  }

  /** The flag computation of the inner loop: `find` the first `args` capture and
      run the check on its text, or `(false, None)`. */
  method MatchFlag(source: string, m: QueryMatch, p: Provider, check: BaseUrlCheck) returns (flag: (bool, Option<string>))
    requires CapturesWithin(m, |source|)
    ensures flag == Flag(source, m, p, check)
  {
    var args := FindCapture(m.captures, "args");
    flag := (false, None);
    if args.Some? {
      FoundCaptureWithin(m, |source|, "args");
      flag := check(source[args.value.node.startByte..args.value.node.endByte], p);
    }
  }

  /** The inner loop, over the captures of one match. */
  method MatchInstances(path: string, source: string, p: Provider, config: DetectorConfig, check: BaseUrlCheck, m: QueryMatch)
    returns (found: seq<DetectionInstance>)
    requires CapturesWithin(m, |source|)
    ensures found == SiteInstances(path, m.captures, p, config, Flag(source, m, p, check))
  {
    found := [];
    var j := 0;
    while j < |m.captures|
      invariant 0 <= j <= |m.captures|
      invariant found == SiteInstances(path, m.captures[..j], p, config, Flag(source, m, p, check))
    {
      var capture := m.captures[j];
      SiteInstancesStep(path, m.captures, p, config, Flag(source, m, p, check), j);
      if capture.name == config.captureName {
        var flag := MatchFlag(source, m, p, check);
        found := found + [DetectionInstance(path, capture.node.row + 1, capture.node.column + 1,
                                            p, config.language, flag.0, flag.1)];
      }
      j := j + 1;
    }
    assert m.captures[..|m.captures|] == m.captures;
  }

  /** The outer loop, over the matches. */
  method CollectInstances(path: string, source: string, p: Provider, config: DetectorConfig, check: BaseUrlCheck, ms: seq<QueryMatch>)
    returns (instances: seq<DetectionInstance>)
    requires MatchesWithin(ms, |source|)
    ensures instances == Instances(path, source, p, config, check, ms)
  {
    instances := [];
    var i := 0;
    while i < |ms|
      invariant 0 <= i <= |ms|
      invariant MatchesWithin(ms[..i], |source|)
      invariant instances == Instances(path, source, p, config, check, ms[..i])
    {
      InstancesStep(path, source, p, config, check, ms, i);
      var found := MatchInstances(path, source, p, config, check, ms[i]);
      instances := instances + found;
      i := i + 1;
    }
    assert ms[..|ms|] == ms;
  }

  /** `detect_in_file_generic`, with the file's content given. */
  method DetectInFileGeneric(path: string, source: string, p: Provider, config: DetectorConfig, query: Query,
                             check: BaseUrlCheck, engine: Engine)
    returns (r: Result<DetectionResult>)
    requires OutcomeWithin(engine(source, query), |source|)
    ensures r == Expected(path, source, p, config, check, engine(source, query))
  {
    var outcome := engine(source, query);
    match outcome {
      case GrammarError =>
        return Err(Parse("Failed to set language"));
      case NoTree =>
        return Err(Parse("Failed to parse " + LanguageAsStr(config.language) + " file"));
      case QueryError(e) =>
        return Err(Parse("Query error: " + e));
      case Matches(ms) =>
        var instances := CollectInstances(path, source, p, config, check, ms);
        return Ok(DetectionResult(instances));
    }
  }

  /** Exactly one instance per site capture, over all matches. */
  lemma {:induction false} InstanceCount(path: string, source: string, p: Provider, config: DetectorConfig, check: BaseUrlCheck, ms: seq<QueryMatch>)
    requires MatchesWithin(ms, |source|)
    ensures |Instances(path, source, p, config, check, ms)| == TotalNamed(ms, config.captureName)
  {
    if ms != [] {
      MatchesWithinPrefix(ms, |ms| - 1, |source|);
      InstanceCount(path, source, p, config, check, ms[..|ms| - 1]);
    }
  }

  /** Every instance of a match carries that match's flag; a match without `args`
      gives `(false, None)`. */
  lemma SiteFlag(source: string, m: QueryMatch, path: string, p: Provider, config: DetectorConfig, check: BaseUrlCheck)
    requires CapturesWithin(m, |source|)
    ensures var flag := Flag(source, m, p, check);
      forall inst :: inst in SiteInstances(path, m.captures, p, config, flag) ==>
        inst.hasBaseUrl == flag.0 && inst.currentBaseUrl == flag.1
    ensures FindCapture(m.captures, "args").None? ==> Flag(source, m, p, check) == (false, None)
  {
    SiteInstancesFields(path, m.captures, p, config, Flag(source, m, p, check));
  }

  /** A match without a site capture contributes nothing, whatever else it captures. */
  lemma {:induction false} NoSiteNoInstance(path: string, caps: seq<Capture>, p: Provider, config: DetectorConfig, flag: (bool, Option<string>))
    requires forall i :: 0 <= i < |caps| ==> caps[i].name != config.captureName
    ensures NamedCount(caps, config.captureName) == 0
  {
    if caps != [] {
      NoSiteNoInstance(path, caps[..|caps| - 1], p, config, flag);
    }
  }

  /** A property that the default flag and every flag the check gives have holds of
      every instance. */
  lemma {:induction false} InstancesFlags(path: string, source: string, p: Provider, config: DetectorConfig,
                                          check: BaseUrlCheck, ms: seq<QueryMatch>, ok: (bool, Option<string>) -> bool)
    requires MatchesWithin(ms, |source|)
    requires ok(false, None)
    requires forall t :: ok(check(t, p).0, check(t, p).1)
    ensures forall inst :: inst in Instances(path, source, p, config, check, ms) ==> ok(inst.hasBaseUrl, inst.currentBaseUrl)
  {
    if ms != [] {
      var m := ms[|ms| - 1];
      MatchesWithinPrefix(ms, |ms| - 1, |source|);
      InstancesFlags(path, source, p, config, check, ms[..|ms| - 1], ok);
      var flag := Flag(source, m, p, check);
      assert ok(flag.0, flag.1);
      SiteInstancesFields(path, m.captures, p, config, flag);
    }
  }
}
