/** The content logic of `ShimInjector` in src/shim/injector.rs: inserting the
    runtime shim import into a Python file, removing it again, and deciding which
    files are Python entry points. File contents are strings; reading and writing
    the file are left to the caller, and a `Some` result is the text written. */
module Injector {
  import opened Wrappers
  import opened Strings
  import opened Paths

  /** `PYTHON_SHIM_IMPORT_MARKER` */
  const Marker: string := "# PromptGuard runtime shim - auto-injected"

  /** The statement of the shim that puts `.promptguard` on the module path. */
  const ShimPathLine: string :=
    "sys.path.insert(0, " + "os.path.join(" + "os.path.dirname(__file__), " + "'.promptguard'))"

  /** The lines of the shim block: a blank line, the marker, four statements. */
  const ShimLines: seq<string> := ["", Marker, "import sys", "import os", ShimPathLine, "import promptguard_shim"]

  /** `PYTHON_SHIM_IMPORT`: the shim lines, each followed by a line break. */
  const ShimImport: string := Terminated(ShimLines)

  const DoubleQuotes: string := "\"\"\""
  const SingleQuotes: string := "'''"

  /** The first line that may receive the shim: after a `#!` line, if there is one. */
  function StartAfterShebang(lines: seq<string>): (start: nat)
    ensures start <= 1 && (start == 1 <==> lines != [] && StartsWith(lines[0], "#!"))
  {
    if lines != [] && StartsWith(lines[0], "#!") then 1 else 0
  }

  /** The quote that opens a module docstring at the start of the remaining lines. */
  function DocstringQuote(rest: seq<string>): (q: Option<string>)
    ensures q.Some? ==> (q.value == DoubleQuotes || q.value == SingleQuotes) &&
                        StartsWith(TrimStart(Join(rest, "\n")), q.value)
    ensures q.None? ==> !StartsWith(TrimStart(Join(rest, "\n")), DoubleQuotes) &&
                        !StartsWith(TrimStart(Join(rest, "\n")), SingleQuotes)
  {
    var t := TrimStart(Join(rest, "\n"));
    if StartsWith(t, DoubleQuotes) then Some(DoubleQuotes)
    else if StartsWith(t, SingleQuotes) then Some(SingleQuotes)
    else None
  }

  /** The docstring scan from line `i` on, `inDoc` telling whether an opening quote
      line has been seen: the index of the next quote line after an opening one. */
  function ClosingLine(rest: seq<string>, quote: string, i: nat, inDoc: bool): (r: Option<nat>)
    requires i <= |rest|
    ensures r.Some? ==> i <= r.value < |rest| && StartsWith(Trim(rest[r.value]), quote)
    decreases |rest| - i
  {
    if i == |rest| then None
    else if StartsWith(Trim(rest[i]), quote) then
      if inDoc then Some(i) else ClosingLine(rest, quote, i + 1, true)
    else ClosingLine(rest, quote, i + 1, inDoc)
  }

  /** The line before which the shim goes: after a shebang, and after a module
      docstring that a second quote line closes. */
  function InjectPos(lines: seq<string>): (pos: nat)
    ensures StartAfterShebang(lines) <= pos <= |lines|
  {
    var start := StartAfterShebang(lines);
    if start < |lines| then
      match DocstringQuote(lines[start..])
      case None => start
      case Some(q) =>
        match ClosingLine(lines[start..], q, 0, false)
        case None => start
        case Some(i) => start + i + 1
    else start
  }

  /** The loop of `inject_python_shim` that computes `inject_pos`. */
  method InjectPosition(lines: seq<string>) returns (pos: nat)
    ensures pos == InjectPos(lines)
  {
    pos := 0;
    if |lines| > 0 && StartsWith(lines[0], "#!") {
      pos := 1;
    }
    if pos < |lines| {
      var rest := lines[pos..];
      var t := TrimStart(Join(rest, "\n"));
      if StartsWith(t, DoubleQuotes) || StartsWith(t, SingleQuotes) {
        var quote := if StartsWith(t, DoubleQuotes) then DoubleQuotes else SingleQuotes;
        assert DocstringQuote(rest) == Some(quote);
        var closing := ScanDocstring(rest, quote);
        if closing.Some? {
          pos := pos + closing.value + 1;
        }
      }
    }
  }

  /** The docstring loop: the index of the second line whose trimmed text starts
      with the quote. */
  method ScanDocstring(rest: seq<string>, quote: string) returns (closing: Option<nat>)
    ensures closing == ClosingLine(rest, quote, 0, false)
  {
    var inDocstring := false;
    var i := 0;
    while i < |rest|
      invariant 0 <= i <= |rest|
      invariant ClosingLine(rest, quote, i, inDocstring) == ClosingLine(rest, quote, 0, false)
    {
      if StartsWith(Trim(rest[i]), quote) {
        if inDocstring {
          return Some(i);
        }
        inDocstring := true;
      }
      i := i + 1;
    }
    return None;
  }

  /** The text written: every line followed by `\n`, with the shim before line `pos`
      or after the last line when `pos` is the line count. */
  function Injected(lines: seq<string>, pos: nat): string
    requires pos <= |lines|
  {
    Terminated(lines[..pos]) + ShimImport + Terminated(lines[pos..])
  }

  /** What `inject_python_shim` writes: nothing when the marker is present. */
  function Injection(content: string): (r: Option<string>)
    ensures r.None? <==> Contains(content, Marker)
  {
    if Contains(content, Marker) then None
    else
      var lines := Lines(content);
      Some(Injected(lines, InjectPos(lines)))
  }

  /** `inject_python_shim`, with the file's content given: returns whether it
      injected and the content written, if any. */
  method InjectPythonShim(content: string) returns (injected: bool, written: Option<string>)
    ensures injected <==> written.Some?
    ensures written == Injection(content)
  {
    if Contains(content, Marker) {
      return false, None;
    }
    var lines := Lines(content);
    var pos := InjectPosition(lines);
    var newContent := WriteWithShim(lines, pos);
    return true, Some(newContent);
  }

  /** The writing loop: each line and `\n`, the shim just before line `pos`, or at
      the end when `pos` is the line count. */
  method WriteWithShim(lines: seq<string>, pos: nat) returns (newContent: string)
    requires pos <= |lines|
    ensures newContent == Injected(lines, pos)
  {
    newContent := "";
    var i := 0;
    while i < |lines|
      invariant 0 <= i <= |lines|
      invariant newContent == Partial(lines, pos, i)
    {
      PartialStep(lines, pos, i);
      if i == pos {
        newContent := newContent + ShimImport;
      }
      newContent := newContent + lines[i] + "\n";
      i := i + 1;
    }
    if pos >= |lines| {
      newContent := newContent + ShimImport;
    }
    PartialDone(lines, pos);
  }

  /** The text the writing loop has built after `i` lines. */
  function Partial(lines: seq<string>, pos: nat, i: nat): string
    requires pos <= |lines| && i <= |lines|
  {
    if i <= pos then Terminated(lines[..i]) else Terminated(lines[..pos]) + ShimImport + Terminated(lines[pos..i])
  }

  lemma PartialStep(lines: seq<string>, pos: nat, i: nat)
    requires pos <= |lines| && i < |lines|
    ensures Partial(lines, pos, i + 1) ==
      (if i == pos then Partial(lines, pos, i) + ShimImport else Partial(lines, pos, i)) + lines[i] + "\n"
  {
    TerminatedStep(lines, 0, i);
    assert lines[..i] == lines[0..i] && lines[..i + 1] == lines[0..i + 1];
    if pos <= i {
      TerminatedStep(lines, pos, i);
    }
    if i == pos {
      assert lines[pos..pos] == [];
    }
  }

  lemma PartialDone(lines: seq<string>, pos: nat)
    requires pos <= |lines|
    ensures Partial(lines, pos, |lines|) + (if pos >= |lines| then ShimImport else "") == Injected(lines, pos)
  {
    assert lines[..|lines|] == lines;
    if pos == |lines| {
      assert lines[pos..] == [];
    }
  }

  /** One more line of `Terminated` over a slice. */
  lemma TerminatedStep(ls: seq<string>, a: nat, i: nat)
    requires a <= i < |ls|
    ensures Terminated(ls[a..i + 1]) == Terminated(ls[a..i]) + ls[i] + "\n"
  {
    assert ls[a..i + 1] == ls[a..i] + [ls[i]];
    TerminatedAppend(ls[a..i], [ls[i]]);
  }

  /** The lines `remove_python_shim` keeps, from a state `skip` on: a marker line
      starts skipping, and skipping ends after the first blank line. */
  function Kept(lines: seq<string>, skip: bool): (r: seq<string>)
    ensures |r| <= |lines|
  {
    if lines == [] then []
    else if Contains(lines[0], Marker) then Kept(lines[1..], true)
    else if skip then Kept(lines[1..], Trim(lines[0]) != "")
    else [lines[0]] + Kept(lines[1..], false)
  }

  /** No kept line holds the marker. */
  lemma {:induction false} KeptUnmarked(lines: seq<string>, skip: bool)
    ensures forall k :: 0 <= k < |Kept(lines, skip)| ==> !Contains(Kept(lines, skip)[k], Marker)
  {
    if lines != [] {
      KeptUnmarked(lines[1..], Contains(lines[0], Marker) || (skip && Trim(lines[0]) != ""));
    }
  }

  /** Whether the removal loop is still skipping after the lines. */
  function SkipAfter(lines: seq<string>, skip: bool): bool {
    if lines == [] then skip
    else if Contains(lines[0], Marker) then SkipAfter(lines[1..], true)
    else if skip then SkipAfter(lines[1..], Trim(lines[0]) != "")
    else SkipAfter(lines[1..], false)
  }

  /** What `remove_python_shim` writes: nothing without the marker, otherwise the
      kept lines joined with `\n` and ended by one. */
  function Removal(content: string): (r: Option<string>)
    ensures r.None? <==> !Contains(content, Marker)
    ensures r.Some? ==> EndsWith(r.value, "\n")
  {
    if !Contains(content, Marker) then None
    else Some(Join(Kept(Lines(content), false), "\n") + "\n")
  }

  /** `remove_python_shim`, with the file's content given. */
  method RemovePythonShim(content: string) returns (removed: bool, written: Option<string>)
    ensures removed <==> written.Some?
    ensures written == Removal(content)
  {
    if !Contains(content, Marker) {
      return false, None;
    }
    var lines := Lines(content);
    var newLines: seq<string> := [];
    var skipUntilBlank := false;
    var i := 0;
    while i < |lines|
      invariant 0 <= i <= |lines|
      invariant newLines + Kept(lines[i..], skipUntilBlank) == Kept(lines, false)
    {
      var line := lines[i];
      assert lines[i..][0] == line && lines[i..][1..] == lines[i + 1..];
      if Contains(line, Marker) {
        skipUntilBlank := true;
      } else if skipUntilBlank {
        if Trim(line) == "" {
          skipUntilBlank := false;
        }
      } else {
        newLines := newLines + [line];
      }
      i := i + 1;
    }
    assert lines[i..] == [];
    assert newLines + Kept([], skipUntilBlank) == newLines;
    return true, Some(Join(newLines, "\n") + "\n");
  }

  /** Splitting the lines splits what is kept, the second part starting from the
      state the first leaves: lines are kept in their original order. */
  lemma {:induction false} KeptAppend(a: seq<string>, b: seq<string>, skip: bool)
    ensures Kept(a + b, skip) == Kept(a, skip) + Kept(b, SkipAfter(a, skip))
  {
    if a != [] {
      assert (a + b)[0] == a[0] && (a + b)[1..] == a[1..] + b;
      if Contains(a[0], Marker) {
        KeptAppend(a[1..], b, true);
      } else if skip {
        KeptAppend(a[1..], b, Trim(a[0]) != "");
      } else {
        KeptAppend(a[1..], b, false);
      }
    } else {
      assert a + b == b;
    }
  }

  /** Lines without the marker, read while not skipping, are all kept. */
  lemma {:induction false} KeptWithoutMarker(lines: seq<string>)
    requires forall k :: 0 <= k < |lines| ==> !Contains(lines[k], Marker)
    ensures Kept(lines, false) == lines && !SkipAfter(lines, false)
  {
    if lines != [] {
      KeptWithoutMarker(lines[1..]);
    }
  }

  /** A marker line, the non-blank lines after it and the first blank line after
      those are dropped, and the lines that follow are read afresh. */
  lemma {:induction false} MarkerBlockDropped(m: string, block: seq<string>, blank: string, post: seq<string>, skip: bool)
    requires Contains(m, Marker)
    requires forall k :: 0 <= k < |block| ==> Statement(block[k])
    requires !Contains(blank, Marker) && Trim(blank) == ""
    ensures Kept([m] + block + [blank] + post, skip) == Kept(post, false)
  {
    ConsRegroup(m, block, blank, post);
    KeptMarkerLine(m, block + ([blank] + post));
    SkippedBlock(block, [blank] + post);
    assert ([blank] + post)[1..] == post;
  }

  lemma ConsRegroup<T>(x: T, b: seq<T>, y: T, c: seq<T>)
    ensures [x] + b + [y] + c == [x] + (b + ([y] + c))
  {
  }

  /** While skipping, non-blank lines without the marker are dropped. */
  lemma {:induction false} SkippedBlock(block: seq<string>, rest: seq<string>)
    requires forall k :: 0 <= k < |block| ==> Statement(block[k])
    ensures Kept(block + rest, true) == Kept(rest, true)
  {
    if block != [] {
      assert (block + rest)[0] == block[0] && (block + rest)[1..] == block[1..] + rest;
      SkippedBlock(block[1..], rest);
    } else {
      assert block + rest == rest;
    }
  }

  /** A string shorter than the marker does not contain it. */
  lemma ShorterThanMarker(s: string)
    requires |s| < |Marker|
    ensures !Contains(s, Marker)
  {
  }

  /** A line whose first character is not whitespace is not blank. */
  lemma NotBlank(s: string)
    requires s != [] && !IsWhitespace(s[0])
    ensures Trim(s) != ""
  {
    TrimStartNoop(s);
  }

  /** A text without `#` does not contain the marker, which starts with one. */
  lemma NoHash(s: string)
    requires Lacks(s, '#')
    ensures !Contains(s, Marker)
  {
    forall i: nat ensures !OccursAt(s, Marker, i) {
      if i + |Marker| <= |s| {
        assert s[i..i + |Marker|][0] == s[i];
      }
    }
  }

  /** The path statement of the shim, in pieces short enough to inspect. */
  lemma PathPiece1() ensures Lacks("sys.path.insert(0, ", '\n') && Lacks("sys.path.insert(0, ", '#') {}
  lemma PathPiece2() ensures Lacks("os.path.join(", '\n') && Lacks("os.path.join(", '#') {}
  lemma PathPiece3() ensures Lacks("os.path.dirname(__file__), ", '\n') && Lacks("os.path.dirname(__file__), ", '#') {}
  lemma PathPiece4() ensures Lacks("'.promptguard'))", '\n') && Lacks("'.promptguard'))", '#') {}

  /** The path statement has neither a line break nor a `#`. */
  lemma PathLineClean()
    ensures Lacks(ShimLines[4], '\n') && Lacks(ShimLines[4], '#')
  {
    var p1, p2, p3, p4 := "sys.path.insert(0, ", "os.path.join(", "os.path.dirname(__file__), ", "'.promptguard'))";
    PathPiece1();
    PathPiece2();
    PathPiece3();
    PathPiece4();
    LacksAppend(p1, p2, '\n');
    LacksAppend(p1 + p2, p3, '\n');
    LacksAppend(p1 + p2 + p3, p4, '\n');
    LacksAppend(p1, p2, '#');
    LacksAppend(p1 + p2, p3, '#');
    LacksAppend(p1 + p2 + p3, p4, '#');
  }

  /** `Terminated` of one more line at the front. */
  lemma TerminatedCons(x: string, rest: seq<string>)
    ensures Terminated([x] + rest) == x + "\n" + Terminated(rest)
  {
    assert ([x] + rest)[0] == x && ([x] + rest)[1..] == rest;
  }

  /** The shim block contains the marker, on its second line. */
  lemma ShimHasMarker()
    ensures Contains(ShimImport, Marker)
  {
    var t2 := Terminated(ShimLines[2..]);
    assert ShimLines == [""] + ([Marker] + ShimLines[2..]);
    TerminatedCons("", [Marker] + ShimLines[2..]);
    TerminatedCons(Marker, ShimLines[2..]);
    assert ShimImport == "" + "\n" + (Marker + "\n" + t2);
    assert ShimImport == "\n" + Marker + ("\n" + t2);
    ContainsMiddle("\n", Marker, "\n" + t2);
  }

  /** Injected content holds the marker, so a second injection writes nothing. */
  lemma InjectTwice(content: string)
    requires Injection(content).Some?
    ensures Contains(Injection(content).value, Marker)
    ensures Injection(Injection(content).value).None?
  {
    var lines := Lines(content);
    var pos := InjectPos(lines);
    ShimHasMarker();
    ContainsMiddle(Terminated(lines[..pos]), ShimImport, Terminated(lines[pos..]));
    ContainsTransitive(Injection(content).value, ShimImport, Marker);
  }

  /** A shebang line stays the first line: the written content starts with it. */
  lemma ShebangStaysFirst(content: string)
    requires Injection(content).Some?
    requires Lines(content) != [] && StartsWith(Lines(content)[0], "#!")
    ensures StartsWith(Injection(content).value, Lines(content)[0] + "\n")
  {
    var lines := Lines(content);
    var pos := InjectPos(lines);
    FirstLineLeads(lines, pos, ShimImport + Terminated(lines[pos..]));
  }

  /** Text written after the first `pos` lines, `pos` at least one, starts with the
      first line and its line break. */
  lemma FirstLineLeads(lines: seq<string>, pos: nat, tail: string)
    requires 1 <= pos <= |lines|
    ensures StartsWith(Terminated(lines[..pos]) + tail, lines[0] + "\n")
  {
    assert lines[..pos] == [lines[0]] + lines[1..pos];
    TerminatedCons(lines[0], lines[1..pos]);
    var h := lines[0] + "\n";
    var t := Terminated(lines[1..pos]) + tail;
    assert Terminated(lines[..pos]) + tail == h + t;
    assert (h + t)[..|h|] == h;
  }

  /** The shim lines are clean lines: no line break, no final carriage return. */
  lemma ShimLinesClean()
    ensures forall k :: 0 <= k < |ShimLines| ==>
      NoNewline(ShimLines[k]) && (ShimLines[k] == [] || ShimLines[k][|ShimLines[k]| - 1] != '\r')
  {
    PathLineClean();
    assert Lacks(ShimLines[1], '\n');
    assert Lacks(ShimLines[2], '\n');
    assert Lacks(ShimLines[3], '\n');
    assert Lacks(ShimLines[5], '\n');
  }

  /** A line that the removal loop skips: no marker, not blank. */
  predicate Statement(s: string) {
    !Contains(s, Marker) && Trim(s) != ""
  }

  /** A line is a statement when it starts with a non-blank character and either is
      shorter than the marker or has no `#`. */
  lemma StatementLine(s: string)
    requires s != [] && !IsWhitespace(s[0])
    requires |s| < |Marker| || Lacks(s, '#')
    ensures Statement(s)
  {
    NotBlank(s);
    if |s| < |Marker| {
      ShorterThanMarker(s);
    } else {
      NoHash(s);
    }
  }

  lemma ImportSysStatement() ensures Statement(ShimLines[2]) { StatementLine(ShimLines[2]); }
  lemma ImportOsStatement() ensures Statement(ShimLines[3]) { StatementLine(ShimLines[3]); }
  lemma PathStatement() ensures Statement(ShimLines[4]) { PathLineClean(); StatementLine(ShimLines[4]); }
  lemma ImportShimStatement() ensures Statement(ShimLines[5]) { StatementLine(ShimLines[5]); }

  /** The four statements of the shim are skipped by the removal loop. */
  lemma ShimStatements()
    ensures forall k :: 2 <= k < |ShimLines| ==> Statement(ShimLines[k])
  {
    forall k | 2 <= k < |ShimLines| ensures Statement(ShimLines[k]) {
      if k == 2 {
        ImportSysStatement();
      } else if k == 3 {
        ImportOsStatement();
      } else if k == 4 {
        PathStatement();
      } else {
        ImportShimStatement();
      }
    }
  }

  /** The marker line holds the marker; the line before it is empty. */
  lemma ShimHead()
    ensures !Contains(ShimLines[0], Marker) && Contains(ShimLines[1], Marker)
  {
    ShorterThanMarker("");
    assert Marker[0..|Marker|] == Marker;
    ContainsAt(Marker, Marker, 0);
  }

  /** A line without the marker, a marker line and a block of statements: removal
      keeps the first line and leaves the block in the skipping state. */
  lemma KeptAfterMarkerBlock(first: string, m: string, block: seq<string>, rest: seq<string>)
    requires !Contains(first, Marker) && Contains(m, Marker)
    requires forall k :: 0 <= k < |block| ==> Statement(block[k])
    ensures Kept([first, m] + block + rest, false) == [first] + Kept(rest, true)
  {
    SkippedBlock(block, rest);
    PairRegroup(first, m, block, rest);
    KeptUnmarkedLine(first, [m] + (block + rest));
    KeptMarkerLine(m, block + rest);
  }

  lemma SeqAssoc<T>(a: seq<T>, b: seq<T>, c: seq<T>)
    ensures a + b + c == a + (b + c)
  {
  }

  lemma PairRegroup<T>(x: T, y: T, b: seq<T>, c: seq<T>)
    ensures [x, y] + b + c == [x] + ([y] + (b + c))
  {
    assert [x, y] == [x] + [y];
  }

  /** A line without the marker, read while not skipping, is kept. */
  lemma KeptUnmarkedLine(line: string, rest: seq<string>)
    requires !Contains(line, Marker)
    ensures Kept([line] + rest, false) == [line] + Kept(rest, false)
  {
    assert ([line] + rest)[1..] == rest;
  }

  /** A marker line is dropped and starts skipping. */
  lemma KeptMarkerLine(line: string, rest: seq<string>)
    requires Contains(line, Marker)
    ensures Kept([line] + rest, false) == Kept(rest, true)
  {
    assert ([line] + rest)[1..] == rest;
  }

  /** After the shim lines, removal keeps the leading blank line and resumes in
      the skipping state. */
  lemma KeptAfterShim(rest: seq<string>)
    ensures Kept(ShimLines + rest, false) == [""] + Kept(rest, true)
  {
    ShimHead();
    ShimStatements();
    var block := ShimLines[2..];
    assert forall k :: 0 <= k < |block| ==> block[k] == ShimLines[k + 2];
    assert ShimLines == [ShimLines[0], ShimLines[1]] + block;
    KeptAfterMarkerBlock(ShimLines[0], ShimLines[1], block, rest);
  }

  /** The lines of injected text, when the original lines are clean. */
  lemma InjectedLines(lines: seq<string>, pos: nat)
    requires pos <= |lines|
    requires forall k :: 0 <= k < |lines| ==>
      NoNewline(lines[k]) && (lines[k] == [] || lines[k][|lines[k]| - 1] != '\r')
    ensures Lines(Injected(lines, pos)) == lines[..pos] + ShimLines + lines[pos..]
  {
    var all := lines[..pos] + ShimLines + lines[pos..];
    TerminatedAppend(lines[..pos], ShimLines);
    TerminatedAppend(lines[..pos] + ShimLines, lines[pos..]);
    ShimLinesClean();
    assert forall k :: 0 <= k < |all| ==> all[k] in lines || all[k] in ShimLines;
    LinesOfTerminated(all);
  }

  /** Removal after injection, on lines without the marker: the lines before the
      insertion point and the shim's blank line stay, and the original lines after
      it are dropped up to and including their first blank line. */
  lemma RemoveAfterInjectLines(lines: seq<string>, pos: nat)
    requires pos <= |lines|
    requires forall k :: 0 <= k < |lines| ==> !Contains(lines[k], Marker)
    ensures Kept(lines[..pos] + ShimLines + lines[pos..], false) == lines[..pos] + [""] + Kept(lines[pos..], true)
  {
    var before := lines[..pos];
    assert forall k :: 0 <= k < |before| ==> !Contains(before[k], Marker);
    KeptAroundShim(before, lines[pos..]);
  }

  /** The shim between unmarked lines `before` and any lines `after`. */
  lemma KeptAroundShim(before: seq<string>, after: seq<string>)
    requires forall k :: 0 <= k < |before| ==> !Contains(before[k], Marker)
    ensures Kept(before + ShimLines + after, false) == before + [""] + Kept(after, true)
  {
    KeptAfterShim(after);
    KeptAfterUnmarked(before, ShimLines + after, [""] + Kept(after, true));
    SeqAssoc(before, ShimLines, after);
  }

  /** Unmarked lines read while not skipping are kept ahead of what the rest keeps. */
  lemma KeptAfterUnmarked(before: seq<string>, rest: seq<string>, kept: seq<string>)
    requires forall k :: 0 <= k < |before| ==> !Contains(before[k], Marker)
    requires Kept(rest, false) == kept
    ensures Kept(before + rest, false) == before + kept
  {
    KeptWithoutMarker(before);
    KeptAppend(before, rest, false);
  }

  /** Removal after injection is no round trip: what it writes is the kept lines of
      `RemoveAfterInjectLines`. */
  lemma RemoveAfterInject(content: string)
    requires !Contains(content, Marker)
    requires forall k :: 0 <= k < |Lines(content)| ==>
      !Contains(Lines(content)[k], Marker) &&
      (Lines(content)[k] == [] || Lines(content)[k][|Lines(content)[k]| - 1] != '\r')
    ensures var lines := Lines(content);
      var pos := InjectPos(lines);
      Removal(Injection(content).value) == Some(Join(lines[..pos] + [""] + Kept(lines[pos..], true), "\n") + "\n")
  {
    var lines := Lines(content);
    var pos := InjectPos(lines);
    LinesHaveNoNewline(content);
    InjectedLines(lines, pos);
    InjectTwice(content);
    RemoveAfterInjectLines(lines, pos);
  }

  /** Injecting into `print('hello')` and removing again leaves a lone line break:
      the original line goes with the shim block. */
  lemma HelloSwallowed()
    ensures Injection("print('hello')").Some?
    ensures Removal(Injection("print('hello')").value) == Some("\n")
  {
    HelloRoundTrip("print('hello')");
  }

  lemma HelloRoundTrip(content: string)
    requires content == "print('hello')"
    ensures Injection(content).Some?
    ensures Removal(Injection(content).value) == Some("\n")
  {
    HelloLine(content);
    HelloPosition(content);
    HelloClean(content);
    RemoveAfterInject(content);
    SwallowedLine(Lines(content), content);
  }

  lemma HelloClean(content: string)
    requires content == "print('hello')"
    requires Lines(content) == [content] && !Contains(content, Marker)
    ensures forall k :: 0 <= k < |Lines(content)| ==>
      !Contains(Lines(content)[k], Marker) &&
      (Lines(content)[k] == [] || Lines(content)[k][|Lines(content)[k]| - 1] != '\r')
  {
    assert content[|content| - 1] != '\r';
  }

  /** One line that the shim block swallows leaves only the shim's blank line. */
  lemma SwallowedLine(lines: seq<string>, line: string)
    requires lines == [line] && Kept([line], true) == []
    ensures Join(lines[..0] + [""] + Kept(lines[0..], true), "\n") + "\n" == "\n"
  {
    assert lines[..0] + [""] + Kept(lines[0..], true) == [""];
    assert Join([""], "\n") == "";
  }

  /** A one-line statement reads back as one line, holds no marker and is skipped
      by the removal loop. */
  lemma HelloLine(content: string)
    requires content == "print('hello')"
    ensures Lines(content) == [content]
    ensures !Contains(content, Marker) && Statement(content)
    ensures Kept([content], true) == []
  {
    assert LineEnd(content) == |content|;
    StatementLine(content);
    assert [content][1..] == [];
  }

  /** The shim goes before that line: no shebang, no docstring. */
  lemma HelloPosition(content: string)
    requires content == "print('hello')"
    ensures InjectPos([content]) == 0
  {
    var lines := [content];
    assert !StartsWith(content, "#!");
    assert Join(lines, "\n") == content;
    TrimStartNoop(content);
    assert !StartsWith(content, DoubleQuotes) && !StartsWith(content, SingleQuotes);
    assert lines[0..] == lines;
  }

  /** The lines without any occurrence of `block`: each whole occurrence, read from
      the front, is dropped, and every other line is kept. */
  function WithoutBlock(lines: seq<string>, block: seq<string>): (r: seq<string>)
    requires block != []
    ensures |r| <= |lines|
    decreases |lines|
  {
    if lines == [] then []
    else if |lines| >= |block| && lines[..|block|] == block then WithoutBlock(lines[|block|..], block)
    else [lines[0]] + WithoutBlock(lines[1..], block)
  }

  /** The removal `remove_python_shim` evidently intends: each whole shim block, the
      six lines injection inserts, is dropped, and every other line is kept. */
  function KeptFixed(lines: seq<string>): seq<string> {
    WithoutBlock(lines, ShimLines)
  }

  /** `remove_python_shim` with the corrected removal. */
  function RemovalFixed(content: string): (r: Option<string>)
    ensures r.None? <==> !Contains(content, Marker)
    ensures r.Some? ==> EndsWith(r.value, "\n")
  {
    if !Contains(content, Marker) then None
    else Some(Join(KeptFixed(Lines(content)), "\n") + "\n")
  }

  /** Lines whose second line differs from the block's second line do not start
      with the block: the first line is kept. */
  lemma {:induction false} WithoutBlockStep(lines: seq<string>, block: seq<string>)
    requires |block| >= 2 && |lines| >= 2 && lines[1] != block[1]
    ensures WithoutBlock(lines, block) == [lines[0]] + WithoutBlock(lines[1..], block)
  {
    if |lines| >= |block| {
      assert lines[..|block|][1] == lines[1];
    }
  }

  /** A block occurs in no lines that all differ from its second line, so all are
      kept. */
  lemma {:induction false} WithoutAbsentBlock(lines: seq<string>, block: seq<string>)
    requires |block| >= 2
    requires forall k :: 0 <= k < |lines| ==> lines[k] != block[1]
    ensures WithoutBlock(lines, block) == lines
    decreases |lines|
  {
    if |lines| == 1 {
      assert !(|lines| >= |block|);
    } else if |lines| >= 2 {
      WithoutBlockStep(lines, block);
      assert forall k :: 0 <= k < |lines[1..]| ==> lines[1..][k] == lines[k + 1];
      WithoutAbsentBlock(lines[1..], block);
    }
  }

  /** Lines in front of a block, none equal to its second line, are kept and the
      block is dropped, when its first two lines differ. */
  lemma {:induction false} WithoutBlockAfter(before: seq<string>, block: seq<string>, after: seq<string>)
    requires |block| >= 2 && block[0] != block[1]
    requires forall k :: 0 <= k < |before| ==> before[k] != block[1]
    ensures WithoutBlock(before + block + after, block) == before + WithoutBlock(after, block)
    decreases |before|
  {
    var lines := before + block + after;
    if before == [] {
      assert lines == block + after;
      assert lines[..|block|] == block;
      assert lines[|block|..] == after;
      assert WithoutBlock(lines, block) == WithoutBlock(after, block);
      assert before + WithoutBlock(after, block) == WithoutBlock(after, block);
    } else {
      var rest := before[1..] + block + after;
      assert lines == [before[0]] + rest;
      assert lines[1] == rest[0];
      assert rest[0] != block[1] by {
        if |before| >= 2 {
          assert rest[0] == before[1];
        } else {
          assert rest[0] == block[0];
        }
      }
      WithoutBlockStep(lines, block);
      assert lines[1..] == rest;
      assert forall k :: 0 <= k < |before[1..]| ==> before[1..][k] == before[k + 1];
      WithoutBlockAfter(before[1..], block, after);
      var tail := WithoutBlock(after, block);
      assert WithoutBlock(lines, block) == [before[0]] + (before[1..] + tail);
      assert [before[0]] + before[1..] == before;
      SeqAssoc([before[0]], before[1..], tail);
    }
  }

  /** Inserting a block into lines, none equal to its second line, and dropping it
      again gives the lines back, when its first two lines differ. */
  lemma {:induction false} WithoutInsertedBlock(lines: seq<string>, pos: nat, block: seq<string>)
    requires pos <= |lines| && |block| >= 2 && block[0] != block[1]
    requires forall k :: 0 <= k < |lines| ==> lines[k] != block[1]
    ensures WithoutBlock(lines[..pos] + block + lines[pos..], block) == lines
  {
    var before, after := lines[..pos], lines[pos..];
    assert forall k :: 0 <= k < |before| ==> before[k] == lines[k];
    WithoutBlockAfter(before, block, after);
    assert forall k :: 0 <= k < |after| ==> after[k] == lines[pos + k];
    WithoutAbsentBlock(after, block);
    assert before + after == lines;
  }

  /** Lines without the marker all differ from a line holding it. */
  lemma DifferFromMarked(lines: seq<string>, m: string)
    requires Contains(m, Marker)
    requires forall k :: 0 <= k < |lines| ==> !Contains(lines[k], Marker)
    ensures forall k :: 0 <= k < |lines| ==> lines[k] != m
  {
  }

  /** The corrected removal drops the shim block inserted into lines without the
      marker and keeps all the lines around it. */
  lemma {:induction false} KeptFixedAfterInject(lines: seq<string>, pos: nat)
    requires pos <= |lines|
    requires forall k :: 0 <= k < |lines| ==> !Contains(lines[k], Marker)
    ensures KeptFixed(lines[..pos] + ShimLines + lines[pos..]) == lines
  {
    ShimHead();
    DifferFromMarked(lines, ShimLines[1]);
    WithoutInsertedBlock(lines, pos, ShimLines);
  }

  /** With the corrected removal, removal after injection gives back the original
      lines, each ended by a line break. */
  lemma RemoveFixedAfterInject(content: string)
    requires forall k :: 0 <= k < |Lines(content)| ==>
      !Contains(Lines(content)[k], Marker) &&
      (Lines(content)[k] == [] || Lines(content)[k][|Lines(content)[k]| - 1] != '\r')
    requires !Contains(content, Marker)
    ensures RemovalFixed(Injection(content).value) == Some(Join(Lines(content), "\n") + "\n")
  {
    var lines := Lines(content);
    var pos := InjectPos(lines);
    LinesHaveNoNewline(content);
    InjectedLines(lines, pos);
    InjectTwice(content);
    KeptFixedAfterInject(lines, pos);
  }

  /** With the corrected removal, `print('hello')` comes back, ended by a line break. */
  lemma HelloRestored(content: string)
    requires content == "print('hello')"
    ensures RemovalFixed(Injection(content).value) == Some(content + "\n")
  {
    HelloLine(content);
    HelloClean(content);
    RemoveFixedAfterInject(content);
  }

  /** `common_entry_files` */
  const EntryFileNames: seq<string> :=
    ["main.py", "app.py", "server.py", "run.py", "manage.py", "wsgi.py", "asgi.py", "__main__.py"]

  /** The directory names whose contents are never entry points. */
  const SkippedDirs: seq<string> := ["venv", ".venv", "node_modules", ".git", "dist", "build", "__pycache__"]

  /** The two `__main__` guards. */
  const MainGuards: seq<string> := ["if __name__ == \"__main__\":", "if __name__ == '__main__':"]

  /** The `/`-separated path has a component equal to `name`. */
  predicate HasComponent(path: string, name: string) {
    path == name || StartsWith(path, name + "/") || EndsWith(path, "/" + name) || Contains(path, "/" + name + "/")
  }

  /** The classification of `detect_python_entry_points` for one walked path: not
      under a skipped directory, a regular file, and either a common entry file name
      or a `.py` file (extension compared ignoring ASCII case) whose readable content
      has a `__main__` guard. */
  predicate IsPythonEntryPoint(path: string, isFile: bool, content: Option<string>) {
    && (forall i :: 0 <= i < |SkippedDirs| ==> !HasComponent(path, SkippedDirs[i]))
    && isFile
    && (|| FileName(path).GetOr("") in EntryFileNames
        || (&& Extension(path).Some? && EqIgnoreAsciiCase(Extension(path).value, "py")
            && content.Some?
            && (Contains(content.value, MainGuards[0]) || Contains(content.value, MainGuards[1]))))
  }

  /** In `dir/file`, with no `/` in either part, the only `/` is the separator. */
  lemma NotSeparator(dir: string, file: string, i: int)
    requires '/' !in dir && '/' !in file
    requires 0 <= i < |dir + "/" + file| && i != |dir|
    ensures (dir + "/" + file)[i] != '/'
  {
    var path := dir + "/" + file;
    if i < |dir| {
      assert path[i] == dir[i];
    } else {
      assert path[i] == file[i - |dir| - 1];
    }
  }

  /** `dir/file` starts with `name/` only for `name == dir`. */
  lemma LeadingComponent(dir: string, file: string, name: string)
    requires '/' !in dir && '/' !in file
    requires StartsWith(dir + "/" + file, name + "/")
    ensures name == dir
  {
    var path := dir + "/" + file;
    assert path[|name|] == (name + "/")[|name|];
    if |name| != |dir| {
      NotSeparator(dir, file, |name|);
    }
    assert name == (name + "/")[..|name|] == path[..|name|];
    assert dir == path[..|dir|];
  }

  /** `dir/file` ends with `/name` only for `name == file`. */
  lemma TrailingComponent(dir: string, file: string, name: string)
    requires '/' !in dir && '/' !in file
    requires EndsWith(dir + "/" + file, "/" + name)
    ensures name == file
  {
    var path := dir + "/" + file;
    var k := |path| - |name| - 1;
    assert path[k] == path[k..][0] == ("/" + name)[0];
    if k != |dir| {
      NotSeparator(dir, file, k);
    }
    assert name == ("/" + name)[1..] == path[k..][1..] == path[k + 1..];
    assert file == path[|dir| + 1..];
  }

  /** `dir/file` has no `/name/` in it: it has only one `/`. */
  lemma NoInnerComponent(dir: string, file: string, name: string)
    requires '/' !in dir && '/' !in file
    ensures !Contains(dir + "/" + file, "/" + name + "/")
  {
    var path := dir + "/" + file;
    var t := "/" + name + "/";
    forall i: nat ensures !OccursAt(path, t, i) {
      if i + |t| <= |path| {
        if i == |dir| {
          NotSeparator(dir, file, i + |name| + 1);
          Mismatch(path, t, i, |name| + 1);
        } else {
          NotSeparator(dir, file, i);
          Mismatch(path, t, i, 0);
        }
      }
    }
  }

  /** A path of two components has a component `name` exactly when `name` is one
      of the two. */
  lemma TwoComponents(dir: string, file: string, name: string)
    requires '/' !in dir && '/' !in file && '/' !in name
    ensures HasComponent(dir + "/" + file, name) <==> name == dir || name == file
  {
    var path := dir + "/" + file;
    assert path[|dir|] == '/';
    assert path[..|dir| + 1] == dir + "/";
    assert path[|path| - |file| - 1..] == "/" + file;
    NoInnerComponent(dir, file, name);
    if StartsWith(path, name + "/") {
      LeadingComponent(dir, file, name);
    }
    if EndsWith(path, "/" + name) {
      TrailingComponent(dir, file, name);
    }
  }

  /** A path the directory walk yields, whether it is a regular file, and its text
      when it can be read as UTF-8. */
  datatype WalkEntry = WalkEntry(path: string, isFile: bool, content: Option<string>)

  predicate IsEntry(e: WalkEntry) {
    IsPythonEntryPoint(e.path, e.isFile, e.content)
  }

  /** The paths of the walked entries that `keep` accepts, in walk order. */
  function Selected(entries: seq<WalkEntry>, keep: WalkEntry -> bool): (r: seq<string>)
    ensures |r| <= |entries|
  {
    if entries == [] then []
    else
      var init := Selected(entries[..|entries| - 1], keep);
      var e := entries[|entries| - 1];
      if keep(e) then init + [e.path] else init
  }

  /** The entry points among the walked paths, in walk order. */
  function EntryPoints(entries: seq<WalkEntry>): seq<string> {
    Selected(entries, IsEntry)
  }

  /** `detect_python_entry_points` over the walked paths. */
  method DetectPythonEntryPoints(entries: seq<WalkEntry>) returns (points: seq<string>)
    ensures points == EntryPoints(entries)
  {
    points := [];
    var i := 0;
    while i < |entries|
      invariant 0 <= i <= |entries|
      invariant points == Selected(entries[..i], IsEntry)
    {
      assert entries[..i + 1][..i] == entries[..i];
      var e := entries[i];
      if IsPythonEntryPoint(e.path, e.isFile, e.content) {
        points := points + [e.path];
      }
      i := i + 1;
    }
    assert entries[..i] == entries;
  }

  /** A path is selected exactly when some entry with that path is accepted. */
  lemma {:induction false} SelectedExactly(entries: seq<WalkEntry>, keep: WalkEntry -> bool, p: string)
    ensures p in Selected(entries, keep) <==> exists i :: 0 <= i < |entries| && entries[i].path == p && keep(entries[i])
  {
    if entries != [] {
      var init := entries[..|entries| - 1];
      SelectedExactly(init, keep, p);
      if exists i :: 0 <= i < |init| && init[i].path == p && keep(init[i]) {
        var i :| 0 <= i < |init| && init[i].path == p && keep(init[i]);
        assert entries[i] == init[i];
      }
      if exists i :: 0 <= i < |entries| && entries[i].path == p && keep(entries[i]) {
        var i :| 0 <= i < |entries| && entries[i].path == p && keep(entries[i]);
        if i < |init| {
          assert init[i] == entries[i];
        }
      }
    }
  }

  /** A path is reported exactly when some walked entry with that path is an entry
      point. */
  lemma EntryPointsExactly(entries: seq<WalkEntry>, p: string)
    ensures p in EntryPoints(entries) <==> exists i :: 0 <= i < |entries| && entries[i].path == p && IsEntry(entries[i])
  {
    SelectedExactly(entries, IsEntry, p);
  }

  /** The skipped directory names are single components. */
  lemma SkippedDirsPlain()
    ensures forall i :: 0 <= i < |SkippedDirs| ==> '/' !in SkippedDirs[i]
  {
  }

  /** A two-component path whose parts are not skipped directory names is not
      skipped. */
  lemma NotSkipped(dir: string, file: string)
    requires '/' !in dir && '/' !in file && dir !in SkippedDirs && file !in SkippedDirs
    ensures forall i :: 0 <= i < |SkippedDirs| ==> !HasComponent(dir + "/" + file, SkippedDirs[i])
  {
    SkippedDirsPlain();
    forall i | 0 <= i < |SkippedDirs| ensures !HasComponent(dir + "/" + file, SkippedDirs[i]) {
      TwoComponents(dir, file, SkippedDirs[i]);
    }
  }

  /** The file name of `dir/file`. */
  lemma FileNameOfTwo(dir: string, file: string)
    requires '/' !in file && file != "" && file != "." && file != ".."
    ensures FileName(dir + "/" + file) == Some(file)
  {
    FileNameOfJoin(dir, file);
    assert (dir + "/" + file)[|dir| + 1..] == file;
  }

  /** `main.py` is an entry point whatever its content. */
  lemma MainPyIsEntry(path: string, content: Option<string>)
    requires path == "proj" + "/" + "main.py"
    ensures IsPythonEntryPoint(path, true, content)
  {
    NotSkipped("proj", "main.py");
    FileNameOfTwo("proj", "main.py");
  }

  /** The extension of a `stem.ext` file name with a dot-free, non-empty stem. */
  lemma ExtensionOfTwo(dir: string, stem: string, ext: string)
    requires '/' !in dir && '/' !in stem && '/' !in ext && '.' !in stem && '.' !in ext && stem != ""
    ensures Extension(dir + "/" + (stem + "." + ext)) == Some(ext)
  {
    var name := stem + "." + ext;
    assert '/' !in name;
    assert name != "" && name != "." && name != ".." by {
      assert name[|stem|] == '.' && name[0] != '.';
    }
    FileNameOfTwo(dir, name);
    LastIndexAppend(stem + ".", ext, '.');
    assert LastIndexOf(stem + ".", '.') == Some(|stem|);
    assert name[|stem| + 1..] == ext;
  }

  /** A `.py` file with a `__main__` guard is an entry point. */
  lemma GuardedScriptIsEntry(path: string, content: string)
    requires path == "proj" + "/" + ("script" + "." + "py")
    requires content == MainGuards[0] + "\n    pass"
    ensures IsPythonEntryPoint(path, true, Some(content))
  {
    NotSkipped("proj", "script" + "." + "py");
    ExtensionOfTwo("proj", "script", "py");
    ContainsMiddle("", MainGuards[0], "\n    pass");
    assert "" + MainGuards[0] + "\n    pass" == content;
  }

  /** The extension is compared ignoring ASCII case. */
  lemma UpperCaseExtensionIsEntry(path: string, content: string)
    requires path == "proj" + "/" + ("tool" + "." + "PY")
    requires content == MainGuards[1] + "\n"
    ensures IsPythonEntryPoint(path, true, Some(content))
  {
    NotSkipped("proj", "tool" + "." + "PY");
    ExtensionOfTwo("proj", "tool", "PY");
    GuardLine(content, MainGuards[1]);
    UpperPy("PY");
  }

  lemma GuardLine(content: string, guard: string)
    requires content == guard + "\n"
    ensures Contains(content, guard)
  {
    ContainsMiddle("", guard, "\n");
    assert "" + guard + "\n" == content;
  }

  lemma UpperPy(ext: string)
    requires ext == "PY"
    ensures EqIgnoreAsciiCase(ext, "py")
  {
    assert ToLower(ext) == "py";
  }

  /** A `.py` file that is not a common entry file and has no guard is not one. */
  lemma UnguardedScriptIsNotEntry(path: string, content: string)
    requires path == "proj" + "/" + ("script" + "." + "py")
    requires content == "print('hello')"
    ensures !IsPythonEntryPoint(path, true, Some(content))
  {
    FileNameOfTwo("proj", "script" + "." + "py");
    ScriptNotCommon("script" + "." + "py");
    ShorterThanGuard(content, MainGuards[0]);
    ShorterThanGuard(content, MainGuards[1]);
  }

  lemma ScriptNotCommon(name: string)
    requires name == "script" + "." + "py"
    ensures name !in EntryFileNames
  {
    assert |name| == 9 && name[0] == 's' && name[1] == 'c';
    forall k | 0 <= k < |EntryFileNames| ensures EntryFileNames[k] != name {
      var f := EntryFileNames[k];
      assert |f| != 9 || f[0] != 's' || f[1] != 'c';
    }
  }

  lemma ShorterThanGuard(s: string, guard: string)
    requires |s| < |guard|
    ensures !Contains(s, guard)
  {
  }

  /** Nothing under a `venv` directory is an entry point, even `main.py`. */
  lemma VenvIsSkipped(path: string, content: Option<string>)
    requires path == "proj" + "/venv/" + "main.py"
    ensures !IsPythonEntryPoint(path, true, content)
  {
    ContainsMiddle("proj", "/venv/", "main.py");
    assert "/venv/" == "/" + SkippedDirs[0] + "/";
    assert HasComponent(path, SkippedDirs[0]);
  }

  /** The walk of the project of the entry-point test: the project directory,
      `main.py` and a guarded `script.py`; both files are reported. */
  lemma EntryPointsOfTestProject(main: string, script: string, hello: string, guarded: string)
    requires main == "proj" + "/" + "main.py" && script == "proj" + "/" + ("script" + "." + "py")
    requires hello == "print('hello')" && guarded == MainGuards[0] + "\n    pass"
    ensures EntryPoints([WalkEntry("proj", false, None), WalkEntry(main, true, Some(hello)),
                         WalkEntry(script, true, Some(guarded))]) == [main, script]
  {
    MainPyIsEntry(main, Some(hello));
    GuardedScriptIsEntry(script, guarded);
    var es := [WalkEntry("proj", false, None), WalkEntry(main, true, Some(hello)), WalkEntry(script, true, Some(guarded))];
    assert es[..2][..1] == [es[0]] && es[..2][|es[..2]| - 1] == es[1] && es[..|es| - 1] == es[..2];
    assert [es[0]][..0] == [];
    assert Selected([es[0]], IsEntry) == [];
    assert Selected(es[..2], IsEntry) == [main];
    assert Selected(es, IsEntry) == [main, script];
  }
}
