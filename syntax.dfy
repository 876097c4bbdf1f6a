/** What the core sees of tree-sitter, a foreign parsing library: syntax nodes with
    their byte spans and positions, named captures grouped into query matches, the
    ways parsing can fail, and queries as tables of call-site patterns. */
module Syntax {
  import opened Wrappers
  import opened Strings

  /** The grammar a parser is set to. */
  datatype Grammar = PythonGrammar | TypeScriptGrammar

  /** The callee of a call, or the constructor of a `new` expression, as the queries
      distinguish it: a plain identifier, an attribute (member) access whose object
      is an identifier (`Some`) or something else (`None`), or any other expression. */
  datatype Callee = Ident(name: string) | Attr(receiver: Option<string>, attribute: string) | OtherCallee

  /** The shape of a call site: a call `f(...)` or a `new C(...)`. */
  datatype CallShape = Call(callee: Callee) | New(ctor: Callee)

  /** One alternative of a query:
      - `CallIdent(n)`: a call whose function is the identifier `n`;
      - `CallAttr(o, a)`: a call whose function is an attribute access with attribute
        `a`, and, when `o` is `Some(m)`, with object the identifier `m`;
      - `NewIdent(n)`: a `new` expression whose constructor is the identifier `n`. */
  datatype Pattern = CallIdent(name: string) | CallAttr(receiver: Option<string>, attribute: string) | NewIdent(name: string)

  /** A query: its grammar, its alternatives (one pattern, or a `[...]` disjunction),
      and the name of the capture on the whole call site; every pattern also
      captures the argument list as `args`. */
  datatype Query = Query(grammar: Grammar, patterns: seq<Pattern>, siteCapture: string)

  predicate PatternMatches(p: Pattern, s: CallShape) {
    match p
    case CallIdent(n) => s == Call(Ident(n))
    case CallAttr(o, a) =>
      s.Call? && s.callee.Attr? && s.callee.attribute == a && (o.Some? ==> s.callee.receiver == o)
    case NewIdent(n) => s == New(Ident(n))
  }

  predicate QueryMatches(q: Query, s: CallShape) {
    exists i :: 0 <= i < |q.patterns| && PatternMatches(q.patterns[i], s)
  }

  /** A syntax node: kind, byte span, 0-based start row and column, children. */
  datatype Node = Node(kind: string, startByte: nat, endByte: nat, row: nat, column: nat, children: seq<Node>)

  datatype Capture = Capture(name: string, node: Node)

  datatype QueryMatch = QueryMatch(captures: seq<Capture>)

  /** What setting the grammar, parsing and compiling the query give: a failure at one
      of the three steps, or the matches of the query over the tree, in order. */
  datatype ParseOutcome = GrammarError | NoTree | QueryError(detail: string) | Matches(matches: seq<QueryMatch>)

  /** Tree-sitter itself: parse a source text and run a query over the tree. */
  type Engine = (string, Query) -> ParseOutcome

  /** A node lies within `[lo, hi]` and so do its children within it. */
  predicate NodeWithin(n: Node, lo: nat, hi: nat)
    decreases n
  {
    lo <= n.startByte <= n.endByte <= hi &&
    forall c :: c in n.children ==> NodeWithin(c, n.startByte, n.endByte)
  }

  /** Every node a match captures lies within a source text of `size` bytes. */
  predicate CapturesWithin(m: QueryMatch, size: nat) {
    forall j :: 0 <= j < |m.captures| ==> NodeWithin(m.captures[j].node, 0, size)
  }

  predicate MatchesWithin(ms: seq<QueryMatch>, size: nat) {
    forall i :: 0 <= i < |ms| ==> CapturesWithin(ms[i], size)
  }

  lemma MatchesWithinPrefix(ms: seq<QueryMatch>, n: nat, size: nat)
    requires MatchesWithin(ms, size) && n <= |ms|
    ensures MatchesWithin(ms[..n], size)
  {
    forall i | 0 <= i < n ensures CapturesWithin(ms[..n][i], size) {
      assert ms[..n][i] == ms[i];
    }
  }

  predicate OutcomeWithin(o: ParseOutcome, size: nat) {
    o.Matches? ==> MatchesWithin(o.matches, size)
  }

  /** `&source[node.start_byte()..node.end_byte()]` */
  function NodeText(source: string, n: Node): string
    requires n.startByte <= n.endByte <= |source|
  {
    source[n.startByte..n.endByte]
  }

  /** `captures.iter().find(|c| name of c == name)`: the first capture with that name. */
  function FindCapture(caps: seq<Capture>, name: string): (r: Option<Capture>)
    ensures r.Some? ==> exists i :: 0 <= i < |caps| && caps[i] == r.value && forall j :: 0 <= j < i ==> caps[j].name != name
    ensures r.Some? ==> r.value.name == name
    ensures r.None? <==> forall i :: 0 <= i < |caps| ==> caps[i].name != name
  {
    if caps == [] then None
    else if caps[0].name == name then
      assert caps[0] == caps[0];
      Some(caps[0])
    else
      var r := FindCapture(caps[1..], name);
      if r.Some? then
        var i :| 0 <= i < |caps[1..]| && caps[1..][i] == r.value && forall j :: 0 <= j < i ==> caps[1..][j].name != name;
        assert caps[i + 1] == r.value;
        assert forall j :: 0 <= j < i + 1 ==> caps[j].name != name by {
          forall j | 0 <= j < i + 1 ensures caps[j].name != name {
            if j > 0 { assert caps[j] == caps[1..][j - 1]; }
          }
        }
        r
      else
        assert forall i :: 0 <= i < |caps| ==> caps[i].name != name by {
          forall i | 0 <= i < |caps| ensures caps[i].name != name {
            if i > 0 { assert caps[i] == caps[1..][i - 1]; }
          }
        }
        r
  }

  /** A capture found in a match whose nodes lie within the source lies within it too. */
  lemma FoundCaptureWithin(m: QueryMatch, size: nat, name: string)
    requires CapturesWithin(m, size)
    requires FindCapture(m.captures, name).Some?
    ensures NodeWithin(FindCapture(m.captures, name).value.node, 0, size)
  {
    var c := FindCapture(m.captures, name).value;
    var k :| 0 <= k < |m.captures| && m.captures[k] == c && forall j :: 0 <= j < k ==> m.captures[j].name != name;
    assert NodeWithin(m.captures[k].node, 0, size);
  }
}
