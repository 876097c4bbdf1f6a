/** Consequences of the `EnvScanner` model on the inputs of the repository's own
    tests, and the general facts about extraction they rest on. */
module EnvScannerExamples {
  import opened Wrappers
  import opened Strings
  import opened EnvScanner

  lemma NoNewlineAppend(a: string, b: string)
    requires NoNewline(a) && NoNewline(b)
    ensures NoNewline(a + b)
  {
    assert Lacks(a, '\n') && Lacks(b, '\n');
    LacksAppend(a, b, '\n');
  }

  /** The last character of a written line is the value's, or `=`. */
  lemma LastOfWritten(name: string, value: string)
    requires value == [] || value[|value| - 1] != '\r'
    ensures var l := name + "=" + value; l[|l| - 1] != '\r'
  {
    var l := name + "=" + value;
    assert l[|l| - 1] == if value == [] then '=' else value[|value| - 1];
  }

  /** A written line is one line, when its name and value are. */
  lemma WrittenLineClean(name: string, value: string)
    requires NoNewline(name) && NoNewline(value) && (value == [] || value[|value| - 1] != '\r')
    ensures var l := name + "=" + value; NoNewline(l) && l[|l| - 1] != '\r'
  {
    NoNewlineAppend(name, "=");
    NoNewlineAppend(name + "=", value);
    LastOfWritten(name, value);
  }

  /** Upper-case ASCII letters and `_`, as the names of the tests are. */
  predicate UpperName(name: string) {
    name != [] && forall i :: 0 <= i < |name| ==> 'A' <= name[i] <= 'Z' || name[i] == '_'
  }

  /** Lower-case ASCII letters, digits, `-`, `:`, `/` and `.`, as the values of the
      tests are. */
  predicate PlainChars(value: string) {
    forall i :: 0 <= i < |value| ==> PlainChar(value[i])
  }

  predicate PlainChar(c: char) {
    'a' <= c <= 'z' || '0' <= c <= '9' || c == '-' || c == ':' || c == '/' || c == '.'
  }

  lemma UpperNamePlain(name: string)
    requires UpperName(name)
    ensures Trim(name) == name && !StartsWith(name, "#") && !Contains(name, "=") && NoNewline(name)
  {
    PlainName(name);
  }

  lemma PlainValue(value: string)
    requires PlainChars(value)
    ensures Trim(value) == value && !Quoted(value) && !LoneQuote(value)
    ensures NoNewline(value) && (value == [] || value[|value| - 1] != '\r')
  {
    if value != [] {
      assert PlainChar(value[0]) && PlainChar(value[|value| - 1]);
      Unquoted(value);
    } else {
      assert !StartsWith(value, "\"") && !StartsWith(value, "'");
    }
    TrimmedNoop(value);
  }

  lemma Unquoted(value: string)
    requires value != [] && value[0] != '"' && value[0] != '\''
    ensures !Quoted(value) && !LoneQuote(value)
  {
    assert value[..1][0] == value[0];
  }

  /** A line `NAME=value` of such a name and value is one line and parses to both. */
  lemma TestLine(name: string, value: string)
    requires UpperName(name) && PlainChars(value)
    ensures Readable(name + "=" + value) && ParseLine(name + "=" + value) == Some((name, value))
    ensures NoNewline(name + "=" + value) && (name + "=" + value)[|name + "=" + value| - 1] != '\r'
  {
    UpperNamePlain(name);
    PlainValue(value);
    ParseAssignment(name, value);
    WrittenLineClean(name, value);
  }

  lemma TestLine1(l: string)
    requires l == "OPENAI_API_KEY" + "=" + "sk-test123"
    ensures NoNewline(l) && l[|l| - 1] != '\r'
    ensures Readable(l) && ParseLine(l) == Some(("OPENAI_API_KEY", "sk-test123"))
  {
    TestLine("OPENAI_API_KEY", "sk-test123");
  }

  lemma TestLine2(l: string)
    requires l == "OPENAI_BASE_URL" + "=" + "https://api.example.com"
    ensures NoNewline(l) && l[|l| - 1] != '\r'
    ensures Readable(l) && ParseLine(l) == Some(("OPENAI_BASE_URL", "https://api.example.com"))
  {
    TestLine("OPENAI_BASE_URL", "https://api.example.com");
  }

  lemma TestLine3(l: string)
    requires l == "# Comment"
    ensures NoNewline(l) && l[|l| - 1] != '\r'
    ensures Readable(l) && ParseLine(l).None?
  {
    CommentLine(l);
  }

  /** `KEY=` gives an empty value, not a missing one. */
  lemma TestLine4(l: string)
    requires l == "EMPTY" + "=" + ""
    ensures NoNewline(l) && l[|l| - 1] != '\r'
    ensures Readable(l) && ParseLine(l) == Some(("EMPTY", ""))
  {
    TestLine("EMPTY", "");
  }

  /** The file of the parsing test: two assignments, a comment and an empty value
      give three variables, on lines 1, 2 and 4. */
  lemma ParseEnvFileTest(path: string, l1: string, l2: string, l3: string, l4: string)
    requires l1 == "OPENAI_API_KEY" + "=" + "sk-test123"
    requires l2 == "OPENAI_BASE_URL" + "=" + "https://api.example.com"
    requires l3 == "# Comment" && l4 == "EMPTY" + "=" + ""
    ensures var content := Terminated([l1, l2, l3, l4]);
      && (forall i :: 0 <= i < |Lines(content)| ==> Readable(Lines(content)[i]))
      && Numbered(path, Parsed(Lines(content))) ==
           [EnvVariable("OPENAI_API_KEY", Some("sk-test123"), path, 1),
            EnvVariable("OPENAI_BASE_URL", Some("https://api.example.com"), path, 2),
            EnvVariable("EMPTY", Some(""), path, 4)]
  {
    TestLine1(l1);
    TestLine2(l2);
    TestLine3(l3);
    TestLine4(l4);
    TestFileLines(l1, l2, l3, l4);
    FourLines(path, l1, l2, l3, l4, ("OPENAI_API_KEY", "sk-test123"),
              ("OPENAI_BASE_URL", "https://api.example.com"), ("EMPTY", ""));
  }

  /** The content of the test splits back into its four lines. */
  lemma TestFileLines(l1: string, l2: string, l3: string, l4: string)
    requires l1 == "OPENAI_API_KEY" + "=" + "sk-test123"
    requires l2 == "OPENAI_BASE_URL" + "=" + "https://api.example.com"
    requires l3 == "# Comment" && l4 == "EMPTY" + "=" + ""
    ensures Lines(Terminated([l1, l2, l3, l4])) == [l1, l2, l3, l4]
  {
    TestLine1(l1);
    TestLine2(l2);
    TestLine3(l3);
    TestLine4(l4);
    FourLinesBack(l1, l2, l3, l4);
  }

  /** A line with no line break that does not end in a carriage return. */
  predicate OneLine(l: string) {
    NoNewline(l) && (l == [] || l[|l| - 1] != '\r')
  }

  lemma FourLinesBack(l1: string, l2: string, l3: string, l4: string)
    requires OneLine(l1) && OneLine(l2) && OneLine(l3) && OneLine(l4)
    ensures Lines(Terminated([l1, l2, l3, l4])) == [l1, l2, l3, l4]
  {
    var ls := [l1, l2, l3, l4];
    forall i | 0 <= i < |ls| ensures OneLine(ls[i]) {
      if i == 0 { assert ls[i] == l1; } else if i == 1 { assert ls[i] == l2; }
      else if i == 2 { assert ls[i] == l3; } else { assert ls[i] == l4; }
    }
    LinesOfTerminated(ls);
  }

  /** A file of two assignments, a skipped line and an assignment. */
  lemma FourLines(path: string, l1: string, l2: string, l3: string, l4: string,
                  a: (string, string), b: (string, string), c: (string, string))
    requires Readable(l1) && Readable(l2) && Readable(l3) && Readable(l4)
    requires ParseLine(l1) == Some(a) && ParseLine(l2) == Some(b) && ParseLine(l3).None? && ParseLine(l4) == Some(c)
    requires Lines(Terminated([l1, l2, l3, l4])) == [l1, l2, l3, l4]
    ensures var content := Terminated([l1, l2, l3, l4]);
      && (forall i :: 0 <= i < |Lines(content)| ==> Readable(Lines(content)[i]))
      && Numbered(path, Parsed(Lines(content))) ==
           [EnvVariable(a.0, Some(a.1), path, 1), EnvVariable(b.0, Some(b.1), path, 2), EnvVariable(c.0, Some(c.1), path, 4)]
  {
    FourReadable(l1, l2, l3, l4);
    FourNumbered(path, l1, l2, l3, l4, a, b, c);
  }

  lemma FourReadable(l1: string, l2: string, l3: string, l4: string)
    requires Readable(l1) && Readable(l2) && Readable(l3) && Readable(l4)
    ensures forall i :: 0 <= i < |[l1, l2, l3, l4]| ==> Readable([l1, l2, l3, l4][i])
  {
    var ls := [l1, l2, l3, l4];
    forall i | 0 <= i < |ls| ensures Readable(ls[i]) {
      if i == 0 { assert ls[i] == l1; } else if i == 1 { assert ls[i] == l2; }
      else if i == 2 { assert ls[i] == l3; } else { assert ls[i] == l4; }
    }
  }

  lemma FourNumbered(path: string, l1: string, l2: string, l3: string, l4: string,
                     a: (string, string), b: (string, string), c: (string, string))
    requires ParseLine(l1) == Some(a) && ParseLine(l2) == Some(b) && ParseLine(l3).None? && ParseLine(l4) == Some(c)
    ensures Numbered(path, Parsed([l1, l2, l3, l4])) ==
      [EnvVariable(a.0, Some(a.1), path, 1), EnvVariable(b.0, Some(b.1), path, 2), EnvVariable(c.0, Some(c.1), path, 4)]
  {
    EachLineOfFour(ParseLine, l1, l2, l3, l4, a, b, c);
    NumberedSkipsNone(path, a, b, c);
  }

  lemma EachLineOfFour(parse: string -> Option<(string, string)>, l1: string, l2: string, l3: string, l4: string,
                       a: (string, string), b: (string, string), c: (string, string))
    requires parse(l1) == Some(a) && parse(l2) == Some(b) && parse(l3).None? && parse(l4) == Some(c)
    ensures EachLine(parse, [l1, l2, l3, l4]) == [Some(a), Some(b), None, Some(c)]
  {
    assert [l1][..0] == [];
    assert EachLine(parse, [l1]) == [Some(a)];
    assert [l1, l2][..1] == [l1];
    assert EachLine(parse, [l1, l2]) == [Some(a), Some(b)];
    assert [l1, l2, l3][..2] == [l1, l2];
    assert EachLine(parse, [l1, l2, l3]) == [Some(a), Some(b), None];
    assert [l1, l2, l3, l4][..3] == [l1, l2, l3];
  }

  /** Numbering counts every line, also the skipped ones. */
  lemma NumberedSkipsNone(path: string, a: (string, string), b: (string, string), c: (string, string))
    ensures Numbered(path, [Some(a), Some(b), None, Some(c)]) ==
      [EnvVariable(a.0, Some(a.1), path, 1), EnvVariable(b.0, Some(b.1), path, 2), EnvVariable(c.0, Some(c.1), path, 4)]
  {
    var va, vb := EnvVariable(a.0, Some(a.1), path, 1), EnvVariable(b.0, Some(b.1), path, 2);
    var p1 := [Some(a)];
    assert p1[..0] == [];
    assert Numbered(path, p1) == [va];
    var p2 := p1 + [Some(b)];
    assert p2[..1] == p1;
    assert Numbered(path, p2) == [va, vb];
    var p3 := p2 + [None];
    assert p3[..2] == p2;
    assert Numbered(path, p3) == [va, vb];
    var p4 := p3 + [Some(c)];
    assert p4[..3] == p3;
    assert p4 == [Some(a), Some(b), None, Some(c)];
  }

  /** The filter keeps the variables in their order: filtering a concatenation
      concatenates the filtered parts. */
  lemma {:induction false} ApiRelatedAppend(a: seq<EnvVariable>, b: seq<EnvVariable>)
    ensures FindApiRelatedVars(a + b) == FindApiRelatedVars(a) + FindApiRelatedVars(b)
  {
    if a == [] {
      assert a + b == b;
    } else {
      assert (a + b)[0] == a[0];
      assert (a + b)[1..] == a[1..] + b;
      ApiRelatedAppend(a[1..], b);
    }
  }

  /** The comparison ignores case: a lower-case key name is API-related. */
  lemma LowerCaseKeyIsApiRelated(name: string)
    requires name == "openai_key"
    ensures IsApiRelated(name)
  {
    var upper := ToUpper(name);
    assert upper == "OPENAI_KEY";
    assert upper == "OPENAI" + "_KEY";
    ContainsMiddle("", "OPENAI", "_KEY");
    assert "" + "OPENAI" + "_KEY" == upper;
    assert ApiKeywords[7] == "OPENAI";
  }

  /** A name with none of the keywords is not. */
  lemma DebugIsNotApiRelated(name: string)
    requires name == "DEBUG"
    ensures !IsApiRelated(name)
  {
    var upper := ToUpper(name);
    assert upper == "DEBUG";
    assert Lacks(upper, 'A') && Lacks(upper, 'K') && Lacks(upper, 'S') && Lacks(upper, 'T') &&
           Lacks(upper, 'R') && Lacks(upper, 'P') && Lacks(upper, 'O') && Lacks(upper, 'C') && Lacks(upper, 'H');
    forall k | 0 <= k < |ApiKeywords| ensures !Contains(upper, ApiKeywords[k]) {
      var at := if k == 4 || k == 6 then 1 else if k == 5 then 3 else 0;
      LacksChar(upper, ApiKeywords[k], at);
    }
  }

  /** The run of a word followed by a non-word character is that word. */
  lemma {:induction false} IdentRunOfWord(name: string, post: string)
    requires forall i :: 0 <= i < |name| ==> IsWordChar(name[i])
    requires post == [] || !IsWordChar(post[0])
    ensures IdentRun(name + post) == name
  {
    if name != [] {
      assert (name + post)[1..] == name[1..] + post;
      IdentRunOfWord(name[1..], post);
    } else {
      assert name + post == post;
    }
  }

  /** A double-quoted name is found whenever no `"` comes before it, whatever
      single quotes surround it. */
  lemma DoubleQuoteWins(a: string, name: string, b: string)
    requires Lacks(a, '"') && Lacks(name, '"')
    ensures QuotedName(a + "\"" + name + "\"" + b) == Some(name)
  {
    var after := a + "\"" + name + "\"" + b;
    assert after[|a|] == '"';
    assert QuoteOf(after) == '"';
    QuotedBy(a, name, b, '"');
  }

  /** A single-quoted name is found when the text has no `"` at all. */
  lemma SingleQuotedName(a: string, name: string, b: string)
    requires Lacks(a, '"') && Lacks(name, '"') && Lacks(b, '"')
    requires Lacks(a, '\'') && Lacks(name, '\'')
    ensures QuotedName(a + "'" + name + "'" + b) == Some(name)
  {
    LacksAppend(a, "'", '"');
    LacksAppend(a + "'", name, '"');
    LacksAppend(a + "'" + name, "'", '"');
    LacksAppend(a + "'" + name + "'", b, '"');
    NoDoubleQuote(a + "'" + name + "'" + b);
    QuotedBy(a, name, b, '\'');
  }

  lemma NoDoubleQuote(s: string)
    requires Lacks(s, '"')
    ensures QuoteOf(s) == '\''
  {
  }

  /** With the chosen quote `q` first at the end of `a`, the name is what lies
      between it and the next `q`. */
  lemma QuotedBy(a: string, name: string, b: string, q: char)
    requires Lacks(a, q) && Lacks(name, q)
    requires QuoteOf(a + [q] + name + [q] + b) == q
    ensures QuotedName(a + [q] + name + [q] + b) == Some(name)
  {
    BetweenFirstTwo(a, name, b, q);
  }

  /** The text between the first two `q`: for a text with no `q` before the first one
      and none inside the name, the name. */
  lemma BetweenFirstTwo(a: string, name: string, b: string, q: char)
    requires Lacks(a, q) && Lacks(name, q)
    ensures Between(a + [q] + name + [q] + b, q) == Some(name)
  {
    FirstQuoteAt(a, name, b, q);
    SecondQuoteAt(a, name, b, q);
    NameBetween(a, name, b, q);
    BetweenOf(a + [q] + name + [q] + b, q, |a|, |name|);
  }

  lemma FirstQuoteAt(a: string, name: string, b: string, q: char)
    requires Lacks(a, q)
    ensures Find(a + [q] + name + [q] + b, [q]) == Some(|a|)
  {
    FindAfterPrefix(a, [q], name + [q] + b);
    assert a + [q] + name + [q] + b == a + [q] + (name + [q] + b);
  }

  lemma SecondQuoteAt(a: string, name: string, b: string, q: char)
    requires Lacks(name, q)
    ensures Find((a + [q] + name + [q] + b)[|a| + 1..], [q]) == Some(|name|)
  {
    assert (a + [q] + name + [q] + b)[|a| + 1..] == name + [q] + b;
    FindAfterPrefix(name, [q], b);
  }

  lemma NameBetween(a: string, name: string, b: string, q: char)
    ensures (a + [q] + name + [q] + b)[|a| + 1..|a| + 1 + |name|] == name
  {
  }

  lemma BetweenOf(s: string, q: char, qs: nat, qe: nat)
    requires Find(s, [q]) == Some(qs) && Find(s[qs + 1..], [q]) == Some(qe)
    ensures Between(s, q) == Some(s[qs + 1..qs + 1 + qe])
  {
  }

  /** There is no text between two `q` exactly when the text holds at most one `q`. */
  lemma BetweenNone(s: string, q: char)
    ensures Between(s, q).None? <==> forall i, j :: 0 <= i < j < |s| ==> s[i] != q || s[j] != q
  {
    match Find(s, [q]) {
      case None =>
        forall i | 0 <= i < |s| ensures s[i] != q {
          assert !OccursAt(s, [q], i);
          assert s[i..i + 1] == [s[i]];
        }
      case Some(qs) =>
        FoundChar(s, q);
        assert s[qs] == q;
        var rest := s[qs + 1..];
        match Find(rest, [q]) {
          case None =>
            forall i | 0 <= i < |s| && i != qs ensures s[i] != q {
              if i < qs {
                assert s[..qs][i] == s[i];
              } else {
                assert !OccursAt(rest, [q], i - qs - 1);
                assert rest[i - qs - 1..i - qs] == [s[i]];
              }
            }
          case Some(qe) =>
            FoundChar(rest, q);
            assert s[qs + 1 + qe] == rest[qe] == q;
        }
    }
  }

  /** What a pattern found at the end of `pre` reads, for a pattern `call + [q]`:
      the name up to the next `q`, provided `q` is also the quote `QuoteOf` picks. */
  lemma QuotedAfterCall(call: string, q: char, name: string, post: string)
    requires q == '"' || q == '\''
    requires Lacks(call, q) && Lacks(name, q)
    requires q == '\'' ==> Lacks(call, '"') && Lacks(name, '"') && Lacks(post, '"')
    ensures QuotedName(call + [q] + name + [q] + post) == Some(name)
    ensures Between(call + [q] + name + [q] + post, q) == Some(name)
  {
    BetweenFirstTwo(call, name, post, q);
    if q == '"' {
      DoubleQuoteWins(call, name, post);
    } else {
      SingleQuotedName(call, name, post);
    }
  }

  /** Each Python pattern is a call text without quotes followed by its quote. */
  lemma PythonPatternShape(k: nat)
    requires k < |PythonPatterns|
    ensures |PythonPatterns[k]| >= 10
    ensures var p := PythonPatterns[k]; var call := p[..|p| - 1];
      && p == call + [PatternQuote(p)]
      && (PatternQuote(p) == '"' || PatternQuote(p) == '\'')
      && Lacks(call, '"') && Lacks(call, '\'')
  {
    var p := PythonPatterns[k];
    assert p == p[..|p| - 1] + [p[|p| - 1]];
  }

  /** Each bracket pattern is `process.env[` followed by its quote. */
  lemma BracketPatternShape(k: nat)
    requires k < |BracketPatterns|
    ensures |BracketPatterns[k]| == 13
    ensures var p := BracketPatterns[k]; var call := p[..12];
      && p == call + [PatternQuote(p)]
      && (PatternQuote(p) == '"' || PatternQuote(p) == '\'')
      && Lacks(call, '"') && Lacks(call, '\'')
  {
    var p := BracketPatterns[k];
    assert p == p[..12] + [p[12]];
  }

  /** A line is read from where the first pattern that occurs in it is first found:
      the name is the quoted text that follows. */
  lemma {:induction false} PythonReads(pre: string, k: nat, rest: string)
    requires k < |PythonPatterns|
    requires FirstFound(pre + PythonPatterns[k] + rest, PythonPatterns) == Some(k)
    requires Find(pre + PythonPatterns[k] + rest, PythonPatterns[k]) == Some(|pre|)
    ensures ExtractEnvVarFromPython(pre + PythonPatterns[k] + rest) == QuotedName(PythonPatterns[k] + rest)
    ensures ExtractEnvVarFromPythonFixed(pre + PythonPatterns[k] + rest) ==
      Between(PythonPatterns[k] + rest, PatternQuote(PythonPatterns[k]))
  {
    PythonPatternShape(k);
    DropPrefix(pre, PythonPatterns[k] + rest);
    assert pre + PythonPatterns[k] + rest == pre + (PythonPatterns[k] + rest);
  }

  /** Any of the six patterns, first found after `pre` and followed by a name and the
      pattern's closing quote, gives that name, provided, for the single-quoted
      patterns, no `"` follows. */
  lemma PythonPatternName(pre: string, k: nat, name: string, post: string)
    requires k < |PythonPatterns|
    requires var line := pre + PythonPatterns[k] + name + [PatternQuote(PythonPatterns[k])] + post;
      FirstFound(line, PythonPatterns) == Some(k) && Find(line, PythonPatterns[k]) == Some(|pre|)
    requires Lacks(name, PatternQuote(PythonPatterns[k]))
    requires PatternQuote(PythonPatterns[k]) == '\'' ==> Lacks(name, '"') && Lacks(post, '"')
    ensures ExtractEnvVarFromPython(pre + PythonPatterns[k] + name + [PatternQuote(PythonPatterns[k])] + post) == Some(name)
  {
    var p := PythonPatterns[k];
    var q := PatternQuote(p);
    var call := p[..|p| - 1];
    PythonPatternShape(k);
    TailRegroup(pre, p, name, q, post);
    PythonReads(pre, k, name + [q] + post);
    CallRegroup(p, call, q, name, post);
    QuotedAfterCall(call, q, name, post);
  }

  /** The corrected extraction reads the name after any of the six patterns, whatever
      quotes follow it. */
  lemma PythonPatternNameFixed(pre: string, k: nat, name: string, post: string)
    requires k < |PythonPatterns|
    requires var line := pre + PythonPatterns[k] + name + [PatternQuote(PythonPatterns[k])] + post;
      FirstFound(line, PythonPatterns) == Some(k) && Find(line, PythonPatterns[k]) == Some(|pre|)
    requires Lacks(name, PatternQuote(PythonPatterns[k]))
    ensures ExtractEnvVarFromPythonFixed(pre + PythonPatterns[k] + name + [PatternQuote(PythonPatterns[k])] + post) == Some(name)
  {
    var p := PythonPatterns[k];
    var q := PatternQuote(p);
    var call := p[..|p| - 1];
    PythonPatternShape(k);
    TailRegroup(pre, p, name, q, post);
    PythonReads(pre, k, name + [q] + post);
    CallRegroup(p, call, q, name, post);
    BetweenFirstTwo(call, name, post, q);
  }

  lemma TailRegroup(pre: string, p: string, name: string, q: char, post: string)
    ensures pre + p + name + [q] + post == pre + p + (name + [q] + post)
  {
  }

  lemma CallRegroup(p: string, call: string, q: char, name: string, post: string)
    requires p == call + [q]
    ensures p + (name + [q] + post) == call + [q] + name + [q] + post
  {
  }

  lemma DropPrefix(pre: string, t: string)
    ensures (pre + t)[|pre|..] == t
  {
  }

  /** The first example of the extraction test. */
  lemma PythonSubscriptExample(line: string)
    requires line == "api_key = " + "os.environ[\"" + "OPENAI_API_KEY" + "\"]"
    ensures ExtractEnvVarFromPython(line) == Some("OPENAI_API_KEY")
  {
    var pre, name, post := "api_key = ", "OPENAI_API_KEY", "]";
    var p := PythonPatterns[0];
    SubscriptSplit(line, pre, p, name, post);
    FindAfterPrefix(pre, p, name + [PatternQuote(p)] + post);
    assert line == pre + p + (name + [PatternQuote(p)] + post);
    assert FirstFound(line, PythonPatterns) == Some(0);
    PythonPatternName(pre, 0, name, post);
  }

  lemma SubscriptSplit(line: string, pre: string, p: string, name: string, post: string)
    requires line == "api_key = " + "os.environ[\"" + "OPENAI_API_KEY" + "\"]"
    requires pre == "api_key = " && p == PythonPatterns[0] && name == "OPENAI_API_KEY" && post == "]"
    ensures PatternQuote(p) == '"'
    ensures line == pre + p + name + [PatternQuote(p)] + post
    ensures Lacks(pre, p[0]) && Lacks(name, '"')
  {
  }

  const GetenvCall := "os.getenv("

  lemma LacksPieces(pre: string, a: string, name: string, post: string, c: char)
    requires Lacks(pre, c) && Lacks(a, c) && Lacks(name, c) && Lacks(post, c) && c != '\''
    ensures Lacks(pre + a + "'" + name + "'" + post, c)
  {
    LacksAppend(pre, a, c);
    LacksAppend(pre + a, "'", c);
    LacksAppend(pre + a + "'", name, c);
    LacksAppend(pre + a + "'" + name, "'", c);
    LacksAppend(pre + a + "'" + name + "'", post, c);
  }

  /** A line without `"`, `[` and `i` that holds the last pattern is read by it. */
  lemma OnlyGetenv(line: string)
    requires Lacks(line, '"') && Lacks(line, '[') && Lacks(line, 'i')
    requires Contains(line, PythonPatterns[5])
    ensures FirstFound(line, PythonPatterns) == Some(5)
  {
    LacksChar(line, PythonPatterns[0], 11);
    LacksChar(line, PythonPatterns[1], 10);
    LacksChar(line, PythonPatterns[2], 15);
    LacksChar(line, PythonPatterns[3], 6);
    LacksChar(line, PythonPatterns[4], 10);
  }

  /** The second example of the extraction test. */
  lemma PythonGetenvExample(line: string)
    requires line == "url = " + "os.getenv('" + "BASE_URL" + "'" + ")"
    ensures ExtractEnvVarFromPython(line) == Some("BASE_URL")
  {
    var pre, name, post := "url = ", "BASE_URL", ")";
    var p := PythonPatterns[5];
    assert p == GetenvCall + "'" && PatternQuote(p) == '\'';
    assert line == pre + p + name + [PatternQuote(p)] + post;
    assert Lacks(pre, '"') && Lacks(pre, '[') && Lacks(pre, 'i');
    assert Lacks(GetenvCall, '"') && Lacks(GetenvCall, '[') && Lacks(GetenvCall, 'i');
    assert Lacks(name, '"') && Lacks(name, '[') && Lacks(name, 'i') && Lacks(name, '\'');
    assert Lacks(post, '"') && Lacks(post, '[') && Lacks(post, 'i');
    LacksPieces(pre, GetenvCall, name, post, '"');
    LacksPieces(pre, GetenvCall, name, post, '[');
    LacksPieces(pre, GetenvCall, name, post, 'i');
    assert line == pre + GetenvCall + "'" + name + "'" + post;
    assert Lacks(pre, p[0]) by { assert p[0] == 'o'; }
    FindAfterPrefix(pre, p, name + [PatternQuote(p)] + post);
    assert line == pre + p + (name + [PatternQuote(p)] + post);
    OnlyGetenv(line);
    PythonPatternName(pre, 5, name, post);
  }

  /** `os.getenv('K',"d")`: the single-quoted pattern is found, but a `"` occurs
      later on the line, so the text between the double quotes, the default value, is
      read as the name; the corrected extraction reads `K`. */
  lemma GetenvDefaultMisread(line: string)
    requires line == "os.getenv('K'," + "\"d\")"
    ensures ExtractEnvVarFromPython(line) == Some("d")
    ensures ExtractEnvVarFromPythonFixed(line) == Some("K")
  {
    var p := PythonPatterns[5];
    var rest := "K'," + "\"d\")";
    var a, b := "os.getenv('K',", ",\"d\")";
    var name1, name2, post1 := "d", "K", ")";
    GetenvSplit(line, p, rest, a, b, name1, name2, post1);
    GetenvFirst(line);
    FindAtStart(line, p);
    PythonReads("", 5, rest);
    DoubleQuoteWins(a, name1, post1);
    BetweenFirstTwo(GetenvCall, name2, b, '\'');
  }

  lemma GetenvSplit(line: string, p: string, rest: string, a: string, b: string, name1: string, name2: string, post1: string)
    requires line == "os.getenv('K'," + "\"d\")" && p == PythonPatterns[5] && rest == "K'," + "\"d\")"
    requires a == "os.getenv('K'," && b == ",\"d\")" && name1 == "d" && name2 == "K" && post1 == ")"
    ensures line == "" + p + rest
    ensures p + rest == a + "\"" + name1 + "\"" + post1
    ensures p + rest == GetenvCall + ['\''] + name2 + ['\''] + b
    ensures PatternQuote(p) == '\''
    ensures Lacks(a, '"') && Lacks(name1, '"') && Lacks(GetenvCall, '\'') && Lacks(name2, '\'')
  {
  }

  /** A pattern at the very start of a text is first found there. */
  lemma FindAtStart(s: string, t: string)
    requires OccursAt(s, t, 0)
    ensures Find(s, t) == Some(0)
  {
  }

  /** Only the last pattern occurs in `os.getenv('K',"d")`. */
  lemma GetenvFirst(line: string)
    requires line == "os.getenv('K'," + "\"d\")"
    ensures FirstFound(line, PythonPatterns) == Some(5)
  {
    assert Lacks(line, 'i') && Lacks(line, '[');
    LacksChar(line, PythonPatterns[0], 10);
    LacksChar(line, PythonPatterns[1], 10);
    LacksChar(line, PythonPatterns[2], 6);
    LacksChar(line, PythonPatterns[3], 6);
    forall i: nat ensures !OccursAt(line, PythonPatterns[4], i) {
      if i + 11 <= |line| {
        assert line[i..i + 11][0] == line[i];
        if i == 0 { assert line[i..i + 11][10] == line[10] == '\''; }
        else { assert line[i] != 'o'; }
      }
    }
    assert OccursAt(line, PythonPatterns[5], 0);
  }

  /** A line holding `process.env.` is read from where that prefix is first found: the
      maximal run of word characters after it, or nothing when that run is empty. */
  lemma {:induction false} TypescriptDottedRun(pre: string, rest: string)
    requires Find(pre + DottedPrefix + rest, DottedPrefix) == Some(|pre|)
    ensures ExtractEnvVarFromTypescript(pre + DottedPrefix + rest) ==
      if IdentRun(rest) == [] then None else Some(IdentRun(rest))
  {
    var line := pre + DottedPrefix + rest;
    assert line == pre + (DottedPrefix + rest);
    DropPrefix(pre, DottedPrefix + rest);
    assert line[|pre| + 12..] == rest;
  }

  /** `process.env.NAME` gives the whole run of word characters after the dot. */
  lemma TypescriptDotted(pre: string, name: string, post: string)
    requires Find(pre + DottedPrefix + name + post, DottedPrefix) == Some(|pre|)
    requires name != [] && forall i :: 0 <= i < |name| ==> IsWordChar(name[i])
    requires post == [] || !IsWordChar(post[0])
    ensures ExtractEnvVarFromTypescript(pre + DottedPrefix + name + post) == Some(name)
  {
    assert pre + DottedPrefix + name + post == pre + DottedPrefix + (name + post);
    TypescriptDottedRun(pre, name + post);
    IdentRunOfWord(name, post);
  }

  /** A dot prefix followed by no word character gives nothing, even when a bracket
      form follows: the bracket patterns are tried only without the dot prefix. */
  lemma TypescriptEmptyRun(pre: string, post: string)
    requires Find(pre + DottedPrefix + post, DottedPrefix) == Some(|pre|)
    requires post == [] || !IsWordChar(post[0])
    ensures ExtractEnvVarFromTypescript(pre + DottedPrefix + post) == None
  {
    TypescriptDottedRun(pre, post);
  }

  /** The first example of the TypeScript extraction test. */
  lemma TypescriptDottedExample(line: string)
    requires line == "const key = " + "process.env." + "OPENAI_API_KEY"
    ensures ExtractEnvVarFromTypescript(line) == Some("OPENAI_API_KEY")
  {
    var pre, name := "const key = ", "OPENAI_API_KEY";
    DottedSplit(line, pre, name);
    FindAfterPrefix(pre, DottedPrefix, name + "");
    assert pre + DottedPrefix + name + "" == pre + DottedPrefix + (name + "");
    TypescriptDotted(pre, name, "");
  }

  lemma DottedSplit(line: string, pre: string, name: string)
    requires line == "const key = " + "process.env." + "OPENAI_API_KEY"
    requires pre == "const key = " && name == "OPENAI_API_KEY"
    ensures line == pre + DottedPrefix + name + ""
    ensures Lacks(pre, DottedPrefix[0])
    ensures name != [] && forall i :: 0 <= i < |name| ==> IsWordChar(name[i])
  {
  }

  /** Without the dot prefix, a line is read from where the first bracket pattern
      that occurs in it is first found. */
  lemma {:induction false} TypescriptBracketReads(pre: string, k: nat, rest: string)
    requires k < |BracketPatterns|
    requires !Contains(pre + BracketPatterns[k] + rest, DottedPrefix)
    requires FirstFound(pre + BracketPatterns[k] + rest, BracketPatterns) == Some(k)
    requires Find(pre + BracketPatterns[k] + rest, BracketPatterns[k]) == Some(|pre|)
    ensures ExtractEnvVarFromTypescript(pre + BracketPatterns[k] + rest) == QuotedName(BracketPatterns[k] + rest)
    ensures ExtractEnvVarFromTypescriptFixed(pre + BracketPatterns[k] + rest) ==
      Between(BracketPatterns[k] + rest, PatternQuote(BracketPatterns[k]))
  {
    BracketPatternShape(k);
    DropPrefix(pre, BracketPatterns[k] + rest);
    assert pre + BracketPatterns[k] + rest == pre + (BracketPatterns[k] + rest);
  }

  /** `process.env["NAME"]` or `process.env['NAME']`, first found after `pre` on a line
      without the dot prefix, gives the name, provided, for the single-quoted form, no
      `"` follows. */
  lemma TypescriptBracket(pre: string, k: nat, name: string, post: string)
    requires k < |BracketPatterns|
    requires var line := pre + BracketPatterns[k] + name + [PatternQuote(BracketPatterns[k])] + post;
      !Contains(line, DottedPrefix) &&
      FirstFound(line, BracketPatterns) == Some(k) && Find(line, BracketPatterns[k]) == Some(|pre|)
    requires Lacks(name, PatternQuote(BracketPatterns[k]))
    requires PatternQuote(BracketPatterns[k]) == '\'' ==> Lacks(name, '"') && Lacks(post, '"')
    ensures ExtractEnvVarFromTypescript(pre + BracketPatterns[k] + name + [PatternQuote(BracketPatterns[k])] + post) == Some(name)
  {
    var p := BracketPatterns[k];
    var q := PatternQuote(p);
    var call := p[..12];
    BracketPatternShape(k);
    TailRegroup(pre, p, name, q, post);
    TypescriptBracketReads(pre, k, name + [q] + post);
    CallRegroup(p, call, q, name, post);
    QuotedAfterCall(call, q, name, post);
  }

  /** The corrected extraction reads the name of either bracket form whatever quotes
      follow it. */
  lemma TypescriptBracketFixed(pre: string, k: nat, name: string, post: string)
    requires k < |BracketPatterns|
    requires var line := pre + BracketPatterns[k] + name + [PatternQuote(BracketPatterns[k])] + post;
      !Contains(line, DottedPrefix) &&
      FirstFound(line, BracketPatterns) == Some(k) && Find(line, BracketPatterns[k]) == Some(|pre|)
    requires Lacks(name, PatternQuote(BracketPatterns[k]))
    ensures ExtractEnvVarFromTypescriptFixed(pre + BracketPatterns[k] + name + [PatternQuote(BracketPatterns[k])] + post) == Some(name)
  {
    var p := BracketPatterns[k];
    var q := PatternQuote(p);
    var call := p[..12];
    BracketPatternShape(k);
    TailRegroup(pre, p, name, q, post);
    TypescriptBracketReads(pre, k, name + [q] + post);
    CallRegroup(p, call, q, name, post);
    BetweenFirstTwo(call, name, post, q);
  }

  lemma NoDottedPrefixIn(pre: string, name: string, post: string)
    requires Lacks(pre, '.') && Lacks(name, '.') && Lacks(post, '.')
    ensures !Contains(pre + BracketPatterns[0] + name + "\"" + post, DottedPrefix)
  {
    LacksAppend(name, "\"", '.');
    LacksAppend(name + "\"", post, '.');
    NoDottedPrefix(pre, name + "\"" + post);
    assert pre + BracketPatterns[0] + name + "\"" + post == pre + BracketPatterns[0] + (name + "\"" + post);
  }
  /** With its only `.` inside the bracket pattern, the line has no dot prefix. */
  lemma NoDottedPrefix(pre: string, tail: string)
    requires Lacks(pre, '.') && Lacks(tail, '.')
    ensures !Contains(pre + BracketPatterns[0] + tail, DottedPrefix)
  {
    var line := pre + BracketPatterns[0] + tail;
    forall i: nat ensures !OccursAt(line, DottedPrefix, i) {
      if i + 12 <= |line| {
        var w := line[i..i + 12];
        assert w[7] == line[i + 7] && w[11] == line[i + 11];
        assert DottedPrefix[7] == '.' && DottedPrefix[11] == '.';
        if i != |pre| {
          DotsInBracketLine(pre, tail, i + 7);
        } else {
          DotsInBracketLine(pre, tail, i + 11);
        }
      }
    }
  }

  /** The only `.` of such a line is the one of `process.env[`. */
  lemma DotsInBracketLine(pre: string, tail: string, j: nat)
    requires Lacks(pre, '.') && Lacks(tail, '.')
    requires j < |pre + BracketPatterns[0] + tail| && j != |pre| + 7
    ensures (pre + BracketPatterns[0] + tail)[j] != '.'
  {
    var line := pre + BracketPatterns[0] + tail;
    if j < |pre| {
      assert line[j] == pre[j];
    } else if j < |pre| + 13 {
      assert line[j] == BracketPatterns[0][j - |pre|];
    } else {
      assert line[j] == tail[j - |pre| - 13];
    }
  }

  /** The second example of the TypeScript extraction test. */
  lemma TypescriptBracketExample(line: string)
    requires line == "const url = " + "process.env[\"" + "BASE_URL" + "\"]"
    ensures ExtractEnvVarFromTypescript(line) == Some("BASE_URL")
  {
    var pre, name, post := "const url = ", "BASE_URL", "]";
    var p := BracketPatterns[0];
    assert PatternQuote(p) == '"';
    assert Lacks(pre, '.') && Lacks(name, '.') && Lacks(post, '.') && Lacks(name, '"');
    assert line == pre + p + name + "\"" + post;
    NoDottedPrefixIn(pre, name, post);
    assert line == pre + p + name + [PatternQuote(p)] + post;
    assert Lacks(pre, p[0]) by { assert p[0] == 'p'; }
    FindAfterPrefix(pre, p, name + [PatternQuote(p)] + post);
    assert line == pre + p + (name + [PatternQuote(p)] + post);
    assert FirstFound(line, BracketPatterns) == Some(0);
    TypescriptBracket(pre, 0, name, post);
  }

  /** `process.env['K']||"x"`: the single-quoted bracket form is found, but a `"`
      occurs later on the line, so the fallback string is read as the name; the
      corrected extraction reads `K`. */
  lemma BracketFallbackMisread(line: string)
    requires line == "process.env['K']" + "||\"x\""
    ensures ExtractEnvVarFromTypescript(line) == Some("x")
    ensures ExtractEnvVarFromTypescriptFixed(line) == Some("K")
  {
    var p := BracketPatterns[1];
    var rest := "K']||" + "\"x\"";
    var a, call, b := "process.env['K']||", "process.env[", "]||\"x\"";
    var name1, name2, post1 := "x", "K", "";
    FallbackSplit(line, p, rest, a, call, b, name1, name2, post1);
    BracketFallbackFirst(line);
    FindAtStart(line, p);
    TypescriptBracketReads("", 1, rest);
    DoubleQuoteWins(a, name1, post1);
    BetweenFirstTwo(call, name2, b, '\'');
  }

  lemma FallbackSplit(line: string, p: string, rest: string, a: string, call: string, b: string,
                      name1: string, name2: string, post1: string)
    requires line == "process.env['K']" + "||\"x\"" && p == BracketPatterns[1] && rest == "K']||" + "\"x\""
    requires a == "process.env['K']||" && call == "process.env[" && b == "]||\"x\""
    requires name1 == "x" && name2 == "K" && post1 == ""
    ensures line == "" + p + rest
    ensures p + rest == a + "\"" + name1 + "\"" + post1
    ensures p + rest == call + ['\''] + name2 + ['\''] + b
    ensures PatternQuote(p) == '\''
    ensures Lacks(a, '"') && Lacks(name1, '"') && Lacks(call, '\'') && Lacks(name2, '\'')
  {
  }

  /** `process.env['K']||"x"` holds neither the dot prefix nor the double-quoted form. */
  lemma BracketFallbackFirst(line: string)
    requires line == "process.env['K']" + "||\"x\""
    ensures !Contains(line, DottedPrefix)
    ensures FirstFound(line, BracketPatterns) == Some(1)
  {
    var t := line[1..];
    assert line[11] == '[' && line[12] == '\'' && Lacks(t, 'p');
    forall i: nat ensures !OccursAt(line, DottedPrefix, i) && !OccursAt(line, BracketPatterns[0], i) {
      if i + 12 <= |line| {
        if i == 0 {
          Mismatch(line, DottedPrefix, 0, 11);
          Mismatch(line, BracketPatterns[0], 0, 12);
        } else {
          assert line[i] == t[i - 1];
          Mismatch(line, DottedPrefix, i, 0);
          if i + 13 <= |line| { Mismatch(line, BracketPatterns[0], i, 0); }
        }
      }
    }
    assert OccursAt(line, BracketPatterns[1], 0);
  }
}
