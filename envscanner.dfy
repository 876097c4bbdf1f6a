/** The text logic of `EnvScanner` in src/analyzer/envscanner.rs: reading the
    variables of a `.env` file line by line, keeping the API-related ones, and
    extracting variable names from Python and TypeScript source lines. File contents
    are strings; finding and reading the files is left to the caller. */
module EnvScanner {
  import opened Wrappers
  import opened Strings

  /** `EnvVariable`: `line` is 1-based. */
  datatype EnvVariable = EnvVariable(name: string, value: Option<string>, file: string, line: nat)

  // ---------------------------------------------------------------------------
  // .env lines

  /** A value wrapped in a matching pair of `"` or `'`. */
  predicate Quoted(v: string) {
    (StartsWith(v, "\"") && EndsWith(v, "\"")) || (StartsWith(v, "'") && EndsWith(v, "'"))
  }

  /** A value that is one quote character both opens and closes; slicing the pair
      out of it panics, so `ParseEnvFile` requires that no line has one. */
  predicate LoneQuote(v: string) {
    v == "\"" || v == "'"
  }

  /** The quote stripping of `parse_env_file`: one matching pair is removed. A lone
      quote, on which the source panics, is left as it is. */
  function Unquote(v: string): (r: string)
    ensures Quoted(v) && !LoneQuote(v) ==> |v| >= 2 && v == [v[0]] + r + [v[0]]
    ensures !Quoted(v) ==> r == v
  {
    if Quoted(v) && |v| >= 2 then v[1..|v| - 1] else v
  }

  /** The name and the raw value of an assignment line: the trimmed text before
      and after the first `=` of the trimmed line. Blank lines, comments and lines
      without `=` have none. */
  function Assignment(line: string): Option<(string, string)> {
    var trimmed := Trim(line);
    if trimmed == "" || StartsWith(trimmed, "#") then None
    else match Find(trimmed, "=")
      case None => None
      case Some(eq) => Some((Trim(trimmed[..eq]), Trim(trimmed[eq + 1..])))
  }

  /** The lines `parse_env_file` reads without panicking. */
  predicate Readable(line: string) {
    Assignment(line).Some? ==> !LoneQuote(Assignment(line).value.1)
  }

  /** The name and value one line contributes, if any. */
  function ParseLine(line: string): Option<(string, string)>
  {
    match Assignment(line)
    case None => None
    case Some((name, raw)) => Some((name, Unquote(raw)))
  }

  /** The result of `parse` on each line, in order. */
  function EachLine(parse: string -> Option<(string, string)>, lines: seq<string>): (r: seq<Option<(string, string)>>)
    ensures |r| == |lines|
  {
    if lines == [] then [] else EachLine(parse, lines[..|lines| - 1]) + [parse(lines[|lines| - 1])]
  }

  /** What each line contributes. */
  function Parsed(lines: seq<string>): (r: seq<Option<(string, string)>>)
    ensures |r| == |lines|
  {
    EachLine(ParseLine, lines)
  }

  /** The entry of a line is the result of `parse` on it. */
  lemma {:induction false} EachLineAt(parse: string -> Option<(string, string)>, lines: seq<string>, k: nat)
    requires k < |lines|
    ensures EachLine(parse, lines)[k] == parse(lines[k])
  {
    if k < |lines| - 1 {
      EachLineAt(parse, lines[..|lines| - 1], k);
    }
  }

  /** The variables of the parsed lines, numbered from 1. */
  function Numbered(path: string, parsed: seq<Option<(string, string)>>): (vs: seq<EnvVariable>)
    ensures |vs| <= |parsed|
  {
    if parsed == [] then []
    else
      var init := Numbered(path, parsed[..|parsed| - 1]);
      match parsed[|parsed| - 1]
      case None => init
      case Some((name, value)) => init + [EnvVariable(name, Some(value), path, |parsed|)]
  }

  /** `parse_env_file`, with the file's content given. */
  method ParseEnvFile(path: string, content: string) returns (variables: seq<EnvVariable>)
    requires forall i :: 0 <= i < |Lines(content)| ==> Readable(Lines(content)[i])
    ensures variables == Numbered(path, Parsed(Lines(content)))
  {
    var lines := Lines(content);
    variables := [];
    var lineNum := 0;
    while lineNum < |lines|
      invariant 0 <= lineNum <= |lines|
      invariant variables == Numbered(path, Parsed(lines[..lineNum]))
    {
      NumberedStep(path, lines, lineNum);
      match ParseLine(lines[lineNum]) {
        case None =>
        case Some((name, value)) =>
          variables := variables + [EnvVariable(name, Some(value), path, lineNum + 1)];
      }
      lineNum := lineNum + 1;
    }
    assert lines[..lineNum] == lines;
  }

  /** One more line adds its variable, if it has one, numbered after the line
      count so far. */
  lemma NumberedStep(path: string, lines: seq<string>, k: nat)
    requires k < |lines|
    ensures var before, after := Numbered(path, Parsed(lines[..k])), Numbered(path, Parsed(lines[..k + 1]));
      match ParseLine(lines[k])
      case None => after == before
      case Some((name, value)) => after == before + [EnvVariable(name, Some(value), path, k + 1)]
  {
    var pre := lines[..k + 1];
    assert pre[..k] == lines[..k];
    var p := Parsed(pre);
    assert p == Parsed(lines[..k]) + [ParseLine(lines[k])];
    assert p[..k] == Parsed(lines[..k]);
  }

  /** A line is skipped exactly when it is blank, a comment, or has no `=`. */
  lemma SkippedLines(line: string)
    ensures ParseLine(line).None? <==>
      Trim(line) == "" || StartsWith(Trim(line), "#") || !Contains(Trim(line), "=")
  {
  }

  /** Exactly one pair of quotes goes, even when the value holds more quotes. */
  lemma UnquoteOnePair(s: string, q: char)
    requires q == '"' || q == '\''
    ensures Unquote([q] + s + [q]) == s
  {
    var v := [q] + s + [q];
    assert v[1..|v| - 1] == s;
  }

  /** Reading a written assignment `name=value` gives back the name and the value,
      when the name is trimmed, not empty, has no `=` and does not start a comment,
      and the value is trimmed and not quoted. */
  lemma ParseAssignment(name: string, value: string)
    requires name != [] && Trim(name) == name && !StartsWith(name, "#") && !Contains(name, "=")
    requires Trim(value) == value && !Quoted(value) && !LoneQuote(value)
    ensures Readable(name + "=" + value)
    ensures ParseLine(name + "=" + value) == Some((name, value))
  {
    WrittenLineTrimmed(name, value);
    WrittenLineSplit(name, value);
    AssignmentSplit(name + "=" + value, |name|, name, value);
    ParsedAssignment(name + "=" + value, name, value);
  }

  /** The written line needs no trimming and is no comment. */
  lemma WrittenLineTrimmed(name: string, value: string)
    requires name != [] && Trim(name) == name && !StartsWith(name, "#")
    requires Trim(value) == value
    ensures var line := name + "=" + value; line != [] && !StartsWith(line, "#") && Trim(line) == line
  {
    TrimmedEnds(name);
    TrimmedEnds(value);
    assert name[..1][0] == name[0];
    AssignmentLineTrimmed(name, value);
  }

  /** The written line splits at the `=` after the name. */
  lemma WrittenLineSplit(name: string, value: string)
    requires !Contains(name, "=")
    ensures var line := name + "=" + value;
      Find(line, "=") == Some(|name|) && line[..|name|] == name && line[|name| + 1..] == value
  {
    forall i | 0 <= i < |name| ensures name[i] != '=' {
      assert name[i..i + 1] == [name[i]];
      assert !OccursAt(name, "=", i);
    }
    FirstEquals(name, value);
  }

  /** A trimmed text has no whitespace at either end. */
  lemma TrimmedEnds(s: string)
    requires Trim(s) == s
    ensures s != [] ==> !IsWhitespace(s[0]) && !IsWhitespace(s[|s| - 1])
  {
  }

  /** A name with no whitespace at its ends, no `=` and no leading `#` meets the
      conditions of the round trip. */
  lemma PlainName(name: string)
    requires name != [] && !IsWhitespace(name[0]) && !IsWhitespace(name[|name| - 1]) && name[0] != '#'
    requires Lacks(name, '=')
    ensures Trim(name) == name && !StartsWith(name, "#") && !Contains(name, "=")
  {
    TrimmedNoop(name);
    NotComment(name);
    LacksChar(name, "=", 0);
  }

  /** An assignment whose value is not quoted keeps its value. */
  lemma ParsedAssignment(line: string, name: string, value: string)
    requires Assignment(line) == Some((name, value))
    requires !Quoted(value) && !LoneQuote(value)
    ensures Readable(line) && ParseLine(line) == Some((name, value))
  {
  }

  lemma AssignmentSplit(line: string, n: nat, name: string, value: string)
    requires Trim(line) == line && line != [] && !StartsWith(line, "#")
    requires Find(line, "=") == Some(n) && line[..n] == name && line[n + 1..] == value
    requires Trim(name) == name && Trim(value) == value
    ensures Assignment(line) == Some((name, value))
  {
    AssignmentAt(line, n);
  }

  /** The written line needs no trimming and does not start a comment. */
  lemma AssignmentLineTrimmed(name: string, value: string)
    requires name != [] && !IsWhitespace(name[0]) && name[0] != '#'
    requires value == [] || !IsWhitespace(value[|value| - 1])
    ensures var line := name + "=" + value; line != [] && !StartsWith(line, "#") && Trim(line) == line
  {
    var line := name + "=" + value;
    assert line[0] == name[0];
    NotComment(line);
    assert line[|line| - 1] == if value == [] then '=' else value[|value| - 1];
    TrimmedNoop(line);
  }

  /** The first `=` of the written line is the one after the name. */
  lemma FirstEquals(name: string, value: string)
    requires forall i :: 0 <= i < |name| ==> name[i] != '='
    ensures var line := name + "=" + value;
      Find(line, "=") == Some(|name|) && line[..|name|] == name && line[|name| + 1..] == value
  {
    var line := name + "=" + value;
    assert forall j :: 0 <= j < |name| ==> line[j] == name[j];
    FindChar(line, '=', |name|);
    assert line[..|name|] == name && line[|name| + 1..] == value;
  }

  /** A text with no whitespace at either end is its own trim. */
  lemma TrimmedNoop(s: string)
    requires s == [] || (!IsWhitespace(s[0]) && !IsWhitespace(s[|s| - 1]))
    ensures Trim(s) == s
  {
    TrimStartNoop(s);
    TrimEndNoop(s);
  }

  /** A trimmed line that is not a comment splits at its first `=`. */
  lemma AssignmentAt(line: string, eq: nat)
    requires Trim(line) == line && line != [] && !StartsWith(line, "#")
    requires Find(line, "=") == Some(eq)
    ensures Assignment(line) == Some((Trim(line[..eq]), Trim(line[eq + 1..])))
  {
  }

  lemma NotComment(line: string)
    requires line != [] && line[0] != '#'
    ensures !StartsWith(line, "#")
  {
    assert line[..1][0] == line[0];
  }

  /** A line of one comment gives nothing. */
  lemma CommentLine(line: string)
    requires line != [] && line[0] == '#' && !IsWhitespace(line[|line| - 1])
    ensures Readable(line) && ParseLine(line).None?
  {
    TrimmedNoop(line);
    assert line[..1] == "#";
  }

  /** Every variable comes from a parsed line, carries its 1-based number and the
      file's path, and the numbers increase. */
  predicate FromLines(path: string, parsed: seq<Option<(string, string)>>, vs: seq<EnvVariable>) {
    && (forall k :: 0 <= k < |vs| ==>
          && 1 <= vs[k].line <= |parsed| && vs[k].file == path && vs[k].value.Some?
          && parsed[vs[k].line - 1] == Some((vs[k].name, vs[k].value.value)))
    && (forall j, k :: 0 <= j < k < |vs| ==> vs[j].line < vs[k].line)
  }

  lemma {:induction false} NumberedFromLines(path: string, parsed: seq<Option<(string, string)>>)
    ensures FromLines(path, parsed, Numbered(path, parsed))
  {
    if parsed != [] {
      var init := parsed[..|parsed| - 1];
      NumberedFromLines(path, init);
      var prior := Numbered(path, init);
      var vs := Numbered(path, parsed);
      assert |prior| <= |vs| && forall k :: 0 <= k < |prior| ==> vs[k] == prior[k];
      forall k | 0 <= k < |prior|
        ensures 1 <= prior[k].line <= |init| && parsed[prior[k].line - 1] == init[prior[k].line - 1]
      {
      }
      if |vs| > |prior| {
        assert vs[|prior|].line == |parsed|;
      }
    }
  }

  /** Every parsed line gives a variable with its number. */
  lemma {:induction false} NumberedComplete(path: string, parsed: seq<Option<(string, string)>>, i: nat)
    requires i < |parsed| && parsed[i].Some?
    ensures exists k :: 0 <= k < |Numbered(path, parsed)| && Numbered(path, parsed)[k].line == i + 1
  {
    var init := parsed[..|parsed| - 1];
    var vs := Numbered(path, parsed);
    if i < |init| {
      assert init[i] == parsed[i];
      NumberedComplete(path, init, i);
      var k :| 0 <= k < |Numbered(path, init)| && Numbered(path, init)[k].line == i + 1;
      assert vs[k] == Numbered(path, init)[k];
    } else {
      assert vs[|vs| - 1].line == i + 1;
    }
  }

  /** The variables of a file come from lines that parse, in line order, with
      their name, value and 1-based number. */
  lemma VariablesSound(path: string, lines: seq<string>)
    ensures ReadFrom(path, lines, Numbered(path, Parsed(lines)))
  {
    NumberedFromLines(path, Parsed(lines));
    ParsedFromLines(path, lines, Numbered(path, Parsed(lines)));
  }

  /** Every variable comes from a line of `lines` that parses to its name and value,
      carries that line's 1-based number and the file's path, and the numbers
      increase. */
  predicate ReadFrom(path: string, lines: seq<string>, vs: seq<EnvVariable>) {
    && (forall k :: 0 <= k < |vs| ==>
          && 1 <= vs[k].line <= |lines| && vs[k].file == path && vs[k].value.Some?
          && ParseLine(lines[vs[k].line - 1]) == Some((vs[k].name, vs[k].value.value)))
    && (forall j, k :: 0 <= j < k < |vs| ==> vs[j].line < vs[k].line)
  }

  lemma ParsedFromLines(path: string, lines: seq<string>, vs: seq<EnvVariable>)
    requires FromLines(path, Parsed(lines), vs)
    ensures ReadFrom(path, lines, vs)
  {
    forall k | 0 <= k < |vs|
      ensures ParseLine(lines[vs[k].line - 1]) == Some((vs[k].name, vs[k].value.value))
    {
      ParsedAt(lines, vs[k].line - 1, vs[k].name, vs[k].value.value);
    }
  }

  lemma ParsedAt(lines: seq<string>, k: nat, name: string, value: string)
    requires k < |lines| && Parsed(lines)[k] == Some((name, value))
    ensures ParseLine(lines[k]) == Some((name, value))
  {
    EachLineAt(ParseLine, lines, k);
  }

  /** Every line that parses gives a variable. */
  lemma VariablesComplete(path: string, lines: seq<string>, i: nat)
    requires i < |lines| && ParseLine(lines[i]).Some?
    ensures exists k :: 0 <= k < |Numbered(path, Parsed(lines))| && Numbered(path, Parsed(lines))[k].line == i + 1
  {
    EachLineAt(ParseLine, lines, i);
    NumberedComplete(path, Parsed(lines), i);
  }

  // ---------------------------------------------------------------------------
  // API-related variables

  /** `api_keywords` */
  const ApiKeywords: seq<string> :=
    ["API", "KEY", "SECRET", "TOKEN", "URL", "ENDPOINT", "BASE", "OPENAI", "ANTHROPIC", "COHERE", "HUGGINGFACE"]

  /** The upper-cased name contains one of the keywords. */
  predicate IsApiRelated(name: string) {
    exists k :: 0 <= k < |ApiKeywords| && Contains(ToUpper(name), ApiKeywords[k])
  }

  /** The filter of `find_api_related_vars`, over the scanned variables. */
  function FindApiRelatedVars(vars: seq<EnvVariable>): (r: seq<EnvVariable>)
    ensures |r| <= |vars|
    ensures forall v :: v in r <==> v in vars && IsApiRelated(v.name)
  {
    if vars == [] then []
    else
      var rest := FindApiRelatedVars(vars[1..]);
      assert forall v :: v in vars <==> v == vars[0] || v in vars[1..];
      if IsApiRelated(vars[0].name) then [vars[0]] + rest else rest
  }

  // ---------------------------------------------------------------------------
  // Variable names in source lines

  /** The patterns of `extract_env_var_from_python`, in the order they are tried. */
  const PythonPatterns: seq<string> :=
    ["os.environ[\"", "os.environ['", "os.environ.get(\"", "os.environ.get('", "os.getenv(\"", "os.getenv('"]

  /** The bracket patterns of `extract_env_var_from_typescript`. */
  const BracketPatterns: seq<string> := ["process.env[\"", "process.env['"]

  /** The dotted prefix of `extract_env_var_from_typescript`. */
  const DottedPrefix: string := "process.env."

  /** The index of the first pattern, in the order tried, that occurs in the line:
      the `find(..).or_else(..)` chain. */
  function FirstFound(line: string, patterns: seq<string>): (r: Option<nat>)
    ensures r.Some? ==> r.value < |patterns| && Contains(line, patterns[r.value])
    ensures r.Some? ==> forall j :: 0 <= j < r.value ==> !Contains(line, patterns[j])
    ensures r.None? <==> forall j :: 0 <= j < |patterns| ==> !Contains(line, patterns[j])
  {
    if patterns == [] then None
    else if Contains(line, patterns[0]) then Some(0)
    else
      var r := FirstFound(line, patterns[1..]);
      assert forall j :: 1 <= j < |patterns| ==> patterns[j] == patterns[1..][j - 1];
      if r.Some? then Some(r.value + 1) else None
  }

  /** The quote the extractors look for: `"` when the text holds one, else `'`. */
  function QuoteOf(after: string): char {
    if '"' in after then '"' else '\''
  }

  /** The text between the first two `q` characters of `s`: `find(q)`, then `find(q)`
      again after it. */
  function Between(s: string, q: char): (r: Option<string>)
    ensures r.Some? ==> Lacks(r.value, q) && Contains(s, [q] + r.value + [q])
  {
    match Find(s, [q])
    case None => None
    case Some(qs) =>
      match Find(s[qs + 1..], [q])
      case None => None
      case Some(qe) =>
        BetweenQuotes(s, q, qs, qe);
        Some(s[qs + 1..qs + 1 + qe])
  }

  /** The text between the first two quote characters of `after`, the quote being the
      one `QuoteOf` picks. */
  function QuotedName(after: string): (r: Option<string>)
    ensures r.Some? ==> Lacks(r.value, QuoteOf(after)) &&
                        Contains(after, [QuoteOf(after)] + r.value + [QuoteOf(after)])
  {
    Between(after, QuoteOf(after))
  }

  /** `extract_env_var_from_python` */
  function ExtractEnvVarFromPython(line: string): (r: Option<string>)
    ensures FirstFound(line, PythonPatterns).None? ==> r.None?
    ensures r.Some? ==> exists k :: 0 <= k < |PythonPatterns| && Contains(line, PythonPatterns[k])
    ensures r.Some? ==> Lacks(r.value, '"') || Lacks(r.value, '\'')
    ensures r.Some? ==> Contains(line, "\"" + r.value + "\"") || Contains(line, "'" + r.value + "'")
  {
    match FirstFound(line, PythonPatterns)
    case None => None
    case Some(k) =>
      var start := Find(line, PythonPatterns[k]).value;
      var r := QuotedName(line[start..]);
      if r.Some? then
        SuffixContains(line, start, [QuoteOf(line[start..])] + r.value + [QuoteOf(line[start..])]);
        r
      else r
  }

  /** The quote a pattern ends with. */
  function PatternQuote(pattern: string): char
    requires pattern != []
  {
    pattern[|pattern| - 1]
  }

  /** The Python extraction with the quote taken from the pattern found rather than
      from whether a `"` occurs anywhere after it. */
  function ExtractEnvVarFromPythonFixed(line: string): (r: Option<string>)
    ensures FirstFound(line, PythonPatterns).None? ==> r.None?
  {
    match FirstFound(line, PythonPatterns)
    case None => None
    case Some(k) =>
      var start := Find(line, PythonPatterns[k]).value;
      assert |PythonPatterns[k]| >= 10;
      Between(line[start..], PatternQuote(PythonPatterns[k]))
  }

  /** A suffix of a line, and so everything it contains, is contained in the line. */
  lemma SuffixContains(line: string, start: nat, t: string)
    requires start <= |line| && Contains(line[start..], t)
    ensures Contains(line, t)
  {
    assert line == line[..start] + line[start..] + "";
    ContainsMiddle(line[..start], line[start..], "");
    ContainsTransitive(line, line[start..], t);
  }

  /** `take_while(|c| c.is_alphanumeric() || c == '_')` */
  function IdentRun(s: string): (r: string)
    ensures |r| <= |s| && r == s[..|r|]
    ensures forall i :: 0 <= i < |r| ==> IsWordChar(r[i])
    ensures |r| < |s| ==> !IsWordChar(s[|r|])
  {
    if s != [] && IsWordChar(s[0]) then [s[0]] + IdentRun(s[1..]) else []
  }

  /** `extract_env_var_from_typescript` */
  function ExtractEnvVarFromTypescript(line: string): (r: Option<string>)
    ensures !Contains(line, DottedPrefix) && FirstFound(line, BracketPatterns).None? ==> r.None?
    ensures Contains(line, DottedPrefix) && r.Some? ==>
      r.value != [] && (forall i :: 0 <= i < |r.value| ==> IsWordChar(r.value[i])) &&
      Contains(line, DottedPrefix + r.value)
    ensures !Contains(line, DottedPrefix) && r.Some? ==>
      (Contains(line, BracketPatterns[0]) || Contains(line, BracketPatterns[1])) &&
      (Contains(line, "\"" + r.value + "\"") || Contains(line, "'" + r.value + "'"))
  {
    match Find(line, DottedPrefix)
    case Some(start) =>
      var name := IdentRun(line[start + 12..]);
      if name != "" then
        DottedNameFound(line, start, name);
        Some(name)
      else None
    case None =>
      match FirstFound(line, BracketPatterns)
      case None => None
      case Some(k) =>
        var start := Find(line, BracketPatterns[k]).value;
        var r := QuotedName(line[start..]);
        if r.Some? then
          SuffixContains(line, start, [QuoteOf(line[start..])] + r.value + [QuoteOf(line[start..])]);
          r
        else r
  }

  lemma DottedNameFound(line: string, start: nat, name: string)
    requires OccursAt(line, DottedPrefix, start) && name == IdentRun(line[start + 12..])
    ensures Contains(line, DottedPrefix + name)
  {
    assert line[start..start + 12 + |name|] == DottedPrefix + name;
    ContainsAt(line, DottedPrefix + name, start);
  }

  /** The TypeScript extraction with the quote of the bracket form taken from the
      pattern found. */
  function ExtractEnvVarFromTypescriptFixed(line: string): (r: Option<string>)
    ensures !Contains(line, DottedPrefix) && FirstFound(line, BracketPatterns).None? ==> r.None?
    ensures Contains(line, DottedPrefix) ==> r == ExtractEnvVarFromTypescript(line)
  {
    match Find(line, DottedPrefix)
    case Some(start) =>
      var name := IdentRun(line[start + 12..]);
      if name != "" then Some(name) else None
    case None =>
      match FirstFound(line, BracketPatterns)
      case None => None
      case Some(k) =>
        var start := Find(line, BracketPatterns[k]).value;
        assert |BracketPatterns[k]| == 13;
        Between(line[start..], PatternQuote(BracketPatterns[k]))
  }
}
