/** The methods of Rust's `str` that the core uses, on `string` (a sequence of
    characters; the model treats one character as one byte, that is, ASCII text). */
module Strings {
  import opened Wrappers

  /** `s.starts_with(prefix)` */
  predicate StartsWith(s: string, prefix: string) {
    |prefix| <= |s| && s[..|prefix|] == prefix
  }

  /** `s.ends_with(suffix)` */
  predicate EndsWith(s: string, suffix: string) {
    |suffix| <= |s| && s[|s| - |suffix|..] == suffix
  }

  /** `t` occurs in `s` starting at index `i`. */
  predicate OccursAt(s: string, t: string, i: nat) {
    i + |t| <= |s| && s[i..i + |t|] == t
  }

  lemma OccursAtTail(s: string, t: string, j: nat)
    requires s != []
    ensures OccursAt(s, t, j + 1) <==> OccursAt(s[1..], t, j)
  {
    if j + 1 + |t| <= |s| {
      assert s[j + 1..j + 1 + |t|] == s[1..][j..j + |t|];
    }
  }

  /** `s.find(t)`: the first index where `t` occurs in `s`. */
  function Find(s: string, t: string): (r: Option<nat>)
    ensures r.Some? ==> OccursAt(s, t, r.value)
    ensures r.Some? ==> forall j: nat :: j < r.value ==> !OccursAt(s, t, j)
    ensures r.None? ==> forall j: nat :: !OccursAt(s, t, j)
    decreases |s|
  {
    if StartsWith(s, t) then
      assert s[0..|t|] == s[..|t|];
      Some(0)
    else if s == [] then
      None
    else
      var rest := Find(s[1..], t);
      assert !OccursAt(s, t, 0);
      assert forall j: nat :: OccursAt(s, t, j + 1) <==> OccursAt(s[1..], t, j) by {
        forall j: nat ensures OccursAt(s, t, j + 1) <==> OccursAt(s[1..], t, j) {
          OccursAtTail(s, t, j);
        }
      }
      match rest
      case None =>
        assert forall j: nat :: !OccursAt(s, t, j) by {
          forall j: nat ensures !OccursAt(s, t, j) {
            if j > 0 { assert !OccursAt(s[1..], t, j - 1); }
          }
        }
        None
      case Some(k) =>
        assert forall j: nat :: j < k + 1 ==> !OccursAt(s, t, j) by {
          forall j: nat | j < k + 1 ensures !OccursAt(s, t, j) {
            if j > 0 { assert !OccursAt(s[1..], t, j - 1); }
          }
        }
        Some(k + 1)
  }

  /** A text and a pattern that differ at offset `k` of position `i`. */
  lemma Mismatch(s: string, t: string, i: nat, k: nat)
    requires i + |t| <= |s| && k < |t| && s[i + k] != t[k]
    ensures !OccursAt(s, t, i)
  {
    assert s[i..i + |t|][k] == s[i + k];
  }

  /** `s.contains(t)` */
  predicate Contains(s: string, t: string) {
    Find(s, t).Some?
  }

  lemma ContainsAt(s: string, t: string, i: nat)
    requires OccursAt(s, t, i)
    ensures Contains(s, t)
  {
  }

  /** `t` occurs in any text that has `t` between two other pieces. */
  lemma ContainsMiddle(a: string, t: string, b: string)
    ensures Contains(a + t + b, t)
  {
    assert (a + t + b)[|a|..|a| + |t|] == t;
    ContainsAt(a + t + b, t, |a|);
  }

  /** Regrouping a concatenation of two three-piece parts between an opening and a
      closing piece. */
  lemma Regroup(o: string, a: string, x: string, b: string, c: string, y: string, d: string, e: string)
    ensures o + (a + x + b) + (c + y + d) + e == o + a + x + b + c + y + d + e
  {
  }

  /** Regrouping a three-piece part between a prefix and a closing piece. */
  lemma RegroupTail(s: string, c: string, y: string, d: string, e: string)
    ensures s + (c + y + d) + e == s + c + y + d + e
  {
  }

  /** A text contains every piece of a part it is built from. */
  lemma ContainsInside(x: string, a: string, t: string, b: string, e: string)
    ensures Contains(x + (a + t + b) + e, t)
  {
    assert x + (a + t + b) + e == (x + a) + t + (b + e);
    ContainsMiddle(x + a, t, b + e);
  }

  /** Containment is transitive: a text that contains `u`, which contains `t`, contains `t`. */
  lemma ContainsTransitive(s: string, u: string, t: string)
    requires Contains(s, u) && Contains(u, t)
    ensures Contains(s, t)
  {
    OccursWithin(s, u, t, Find(s, u).value, Find(u, t).value);
    ContainsAt(s, t, Find(s, u).value + Find(u, t).value);
  }

  lemma OccursWithin(s: string, u: string, t: string, i: nat, j: nat)
    requires OccursAt(s, u, i) && OccursAt(u, t, j)
    ensures OccursAt(s, t, i + j)
  {
    forall k | 0 <= k < |t| ensures s[i + j + k] == t[k] {
      assert s[i + j + k] == s[i..i + |u|][j + k];
      assert t[k] == u[j..j + |t|][k];
    }
    assert s[i + j..i + j + |t|] == t;
  }

  /** Rust's `char::is_whitespace`, restricted to ASCII. */
  predicate IsWhitespace(c: char) {
    c == ' ' || c == '\t' || c == '\n' || c == '\r' || c == '\U{000B}' || c == '\U{000C}'
  }

  /** `s.trim_start()` */
  function TrimStart(s: string): (r: string)
    ensures |r| <= |s| && r == s[|s| - |r|..]
    ensures r != [] ==> !IsWhitespace(r[0])
    ensures forall i :: 0 <= i < |s| - |r| ==> IsWhitespace(s[i])
  {
    if s != [] && IsWhitespace(s[0]) then TrimStart(s[1..]) else s
  }

  /** `s.trim_end()` */
  function TrimEnd(s: string): (r: string)
    ensures |r| <= |s| && r == s[..|r|]
    ensures r != [] ==> !IsWhitespace(r[|r| - 1])
    ensures forall i :: |r| <= i < |s| ==> IsWhitespace(s[i])
  {
    if s != [] && IsWhitespace(s[|s| - 1]) then TrimEnd(s[..|s| - 1]) else s
  }

  /** `s.trim()` */
  function Trim(s: string): string {
    TrimEnd(TrimStart(s))
  }

  lemma TrimStartNoop(s: string)
    requires s == [] || !IsWhitespace(s[0])
    ensures TrimStart(s) == s
  {
  }

  lemma TrimEndNoop(s: string)
    requires s == [] || !IsWhitespace(s[|s| - 1])
    ensures TrimEnd(s) == s
  {
  }

  /** Trimming twice is trimming once. */
  lemma TrimIdempotent(s: string)
    ensures Trim(Trim(s)) == Trim(s)
  {
    var x := TrimStart(s);
    var y := TrimEnd(x);
    if y != [] {
      assert y[0] == x[0];
    }
    TrimStartNoop(y);
    TrimEndNoop(y);
  }

  /** `s.trim_start_matches(c)` for a single character `c` */
  function TrimStartMatches(s: string, c: char): (r: string)
    ensures |r| <= |s| && r == s[|s| - |r|..]
    ensures r != [] ==> r[0] != c
    ensures forall i :: 0 <= i < |s| - |r| ==> s[i] == c
  {
    if s != [] && s[0] == c then TrimStartMatches(s[1..], c) else s
  }

  /** `s.trim_end_matches(c)` for a single character `c` */
  function TrimEndMatches(s: string, c: char): (r: string)
    ensures |r| <= |s| && r == s[..|r|]
    ensures r != [] ==> r[|r| - 1] != c
    ensures forall i :: |r| <= i < |s| ==> s[i] == c
  {
    if s != [] && s[|s| - 1] == c then TrimEndMatches(s[..|s| - 1], c) else s
  }

  lemma TrimStartMatchesNoop(s: string, c: char)
    requires s == [] || s[0] != c
    ensures TrimStartMatches(s, c) == s
  {
  }

  lemma TrimEndMatchesNoop(s: string, c: char)
    requires s == [] || s[|s| - 1] != c
    ensures TrimEndMatches(s, c) == s
  {
  }

  /** ASCII lower-casing of one character (`to_lowercase` on ASCII text). */
  function LowerChar(c: char): char {
    if 'A' <= c <= 'Z' then (c as int + 32) as char else c
  }

  /** ASCII upper-casing of one character (`to_uppercase` on ASCII text). */
  function UpperChar(c: char): char {
    if 'a' <= c <= 'z' then (c as int - 32) as char else c
  }

  function ToLower(s: string): (r: string)
    ensures |r| == |s| && forall i :: 0 <= i < |s| ==> r[i] == LowerChar(s[i])
  {
    seq(|s|, i requires 0 <= i < |s| => LowerChar(s[i]))
  }

  function ToUpper(s: string): (r: string)
    ensures |r| == |s| && forall i :: 0 <= i < |s| ==> r[i] == UpperChar(s[i])
  {
    seq(|s|, i requires 0 <= i < |s| => UpperChar(s[i]))
  }

  /** `c.is_ascii_alphanumeric() || c == '_'` */
  predicate IsWordChar(c: char) {
    ('a' <= c <= 'z') || ('A' <= c <= 'Z') || ('0' <= c <= '9') || c == '_'
  }

  /** `s.eq_ignore_ascii_case(t)` */
  predicate EqIgnoreAsciiCase(s: string, t: string) {
    ToLower(s) == ToLower(t)
  }

  /** `c.to_string().repeat(n)` */
  function Repeat(c: char, n: nat): (r: string)
    ensures |r| == n && forall i :: 0 <= i < n ==> r[i] == c
  {
    seq(n, _ => c)
  }

  /** Every character of `s` is ASCII (one byte in UTF-8). */
  predicate IsAscii(s: string) {
    forall i :: 0 <= i < |s| ==> s[i] as int < 128
  }

  /** The length of the first line of `s`: the index of the first `\n`, or `|s|`. */
  function LineEnd(s: string): (k: nat)
    ensures k <= |s|
    ensures forall j :: 0 <= j < k ==> s[j] != '\n'
    ensures k < |s| ==> s[k] == '\n'
  {
    if s == [] || s[0] == '\n' then 0 else 1 + LineEnd(s[1..])
  }

  /** A line ended by `\r\n` loses its `\r`. */
  function StripCR(line: string): string {
    if line != [] && line[|line| - 1] == '\r' then line[..|line| - 1] else line
  }

  /** `s.lines()`: split at `\n` (dropping a `\r` before it); a final line ending
      adds no empty line, and a last line without `\n` keeps a trailing `\r`. */
  function Lines(s: string): seq<string>
    decreases |s|
  {
    if s == [] then []
    else
      var k := LineEnd(s);
      if k == |s| then [s] else [StripCR(s[..k])] + Lines(s[k + 1..])
  }

  /** `lines.join(sep)` */
  function Join(lines: seq<string>, sep: string): string {
    if lines == [] then ""
    else if |lines| == 1 then lines[0]
    else lines[0] + sep + Join(lines[1..], sep)
  }

  /** Each line followed by `\n`, concatenated. */
  function Terminated(lines: seq<string>): string {
    if lines == [] then "" else lines[0] + "\n" + Terminated(lines[1..])
  }

  lemma TerminatedAppend(a: seq<string>, b: seq<string>)
    ensures Terminated(a + b) == Terminated(a) + Terminated(b)
  {
    if a != [] {
      assert (a + b)[0] == a[0];
      assert (a + b)[1..] == a[1..] + b;
      TerminatedAppend(a[1..], b);
      calc {
        Terminated(a + b);
        a[0] + "\n" + Terminated(a[1..] + b);
        a[0] + "\n" + (Terminated(a[1..]) + Terminated(b));
        (a[0] + "\n" + Terminated(a[1..])) + Terminated(b);
      }
    } else {
      assert a + b == b;
    }
  }

  lemma JoinAppend(lines: seq<string>, line: string, sep: string)
    requires lines != []
    ensures Join(lines + [line], sep) == Join(lines, sep) + sep + line
  {
    if |lines| > 1 {
      assert (lines + [line])[1..] == lines[1..] + [line];
      JoinAppend(lines[1..], line, sep);
    }
  }

  /** `StripCR` gives a prefix, so a line with a prefix after stripping had it before. */
  lemma StripCRStartsWith(line: string, p: string)
    requires StartsWith(StripCR(line), p)
    ensures StartsWith(line, p)
  {
  }

  predicate NoNewline(s: string) {
    forall i :: 0 <= i < |s| ==> s[i] != '\n'
  }

  /** The lines of a text hold no line break. */
  lemma {:induction false} LinesHaveNoNewline(s: string)
    ensures forall k :: 0 <= k < |Lines(s)| ==> NoNewline(Lines(s)[k])
    decreases |s|
  {
    if s != [] {
      var k := LineEnd(s);
      if k < |s| {
        LinesHaveNoNewline(s[k + 1..]);
      }
    }
  }

  /** `r` is what re-reading the joined `ls` gives: every line comes back, the
      non-final ones without a trailing `\r`, except that a final empty line is lost. */
  predicate ReadBack(ls: seq<string>, r: seq<string>) {
    && (|r| == |ls| || (|r| == |ls| - 1 && ls[|ls| - 1] == ""))
    && forall i :: 0 <= i < |r| ==> r[i] == if i < |ls| - 1 then StripCR(ls[i]) else ls[i]
  }

  /** Re-reading the lines of joined lines. */
  lemma {:induction false} LinesOfJoin(ls: seq<string>)
    requires forall i :: 0 <= i < |ls| ==> NoNewline(ls[i])
    ensures ReadBack(ls, Lines(Join(ls, "\n")))
  {
    if |ls| == 1 {
      LinesOfOne(ls[0]);
    } else if |ls| >= 2 {
      var rest := ls[1..];
      assert forall i :: 0 <= i < |rest| ==> rest[i] == ls[i + 1];
      LinesOfJoin(rest);
      LinesOfJoinStep(ls);
      ReadBackCons(ls, Lines(Join(rest, "\n")));
    }
  }

  lemma LinesOfOne(s: string)
    requires NoNewline(s)
    ensures ReadBack([s], Lines(Join([s], "\n")))
  {
    if s != [] {
      assert LineEnd(s) == |s|;
    }
  }

  /** Reading back the first line in front of the rest's lines. */
  lemma ReadBackCons(ls: seq<string>, r': seq<string>)
    requires |ls| >= 2 && ReadBack(ls[1..], r')
    ensures ReadBack(ls, [StripCR(ls[0])] + r')
  {
    var r := [StripCR(ls[0])] + r';
    forall i | 0 <= i < |r| ensures r[i] == if i < |ls| - 1 then StripCR(ls[i]) else ls[i] {
      if i > 0 {
        assert r[i] == r'[i - 1];
        assert ls[1..][i - 1] == ls[i];
      }
    }
  }

  /** The first of several joined lines is read back alone, without a final `\r`. */
  lemma LinesOfJoinStep(ls: seq<string>)
    requires |ls| >= 2 && NoNewline(ls[0])
    ensures Lines(Join(ls, "\n")) == [StripCR(ls[0])] + Lines(Join(ls[1..], "\n"))
  {
    LinesAfterBreak(ls[0], Join(ls[1..], "\n"));
  }

  /** A line without a break, a `\n` and a rest: the line comes first, then the rest's. */
  lemma LinesAfterBreak(a: string, b: string)
    requires NoNewline(a)
    ensures Lines(a + "\n" + b) == [StripCR(a)] + Lines(b)
  {
    var s := a + "\n" + b;
    LineEndAt(a, b);
    assert s[..|a|] == a;
    assert s[|a| + 1..] == b;
  }

  lemma LineEndAt(a: string, b: string)
    requires NoNewline(a)
    ensures LineEnd(a + "\n" + b) == |a|
  {
    if a != [] {
      assert (a + "\n" + b)[1..] == a[1..] + "\n" + b;
      LineEndAt(a[1..], b);
    }
  }

  /** The character `c` does not occur in `s`. */
  predicate Lacks(s: string, c: char) {
    forall i :: 0 <= i < |s| ==> s[i] != c
  }

  lemma LacksAppend(a: string, b: string, c: char)
    requires Lacks(a, c) && Lacks(b, c)
    ensures Lacks(a + b, c)
  {
    forall i | 0 <= i < |a + b| ensures (a + b)[i] != c {
      if i >= |a| {
        assert (a + b)[i] == b[i - |a|];
      }
    }
  }

  /** Re-reading terminated lines gives them back, when none holds a line break or
      ends in a carriage return. */
  lemma {:induction false} LinesOfTerminated(ls: seq<string>)
    requires forall k :: 0 <= k < |ls| ==> NoNewline(ls[k]) && (ls[k] == [] || ls[k][|ls[k]| - 1] != '\r')
    ensures Lines(Terminated(ls)) == ls
  {
    if ls != [] {
      var tail := Terminated(ls[1..]);
      assert Terminated(ls) == ls[0] + "\n" + tail;
      LineEndAt(ls[0], tail);
      assert (ls[0] + "\n" + tail)[..|ls[0]|] == ls[0];
      assert (ls[0] + "\n" + tail)[|ls[0]| + 1..] == tail;
      LinesOfTerminated(ls[1..]);
    }
  }

  /** The first occurrence of a one-character pattern is the first index holding it. */
  lemma FindChar(s: string, c: char, k: nat)
    requires k < |s| && s[k] == c && forall j :: 0 <= j < k ==> s[j] != c
    ensures Find(s, [c]) == Some(k)
  {
    assert s[k..k + 1] == [c];
    assert OccursAt(s, [c], k);
    var r := Find(s, [c]);
    assert r.Some?;
    assert s[r.value..r.value + 1][0] == s[r.value];
    assert r.value <= k;
  }

  /** A pattern placed after a prefix that lacks its first character is first found
      right after that prefix. */
  lemma FindAfterPrefix(pre: string, t: string, rest: string)
    requires t != [] && Lacks(pre, t[0])
    ensures Find(pre + t + rest, t) == Some(|pre|)
  {
    var s := pre + t + rest;
    assert s[|pre|..|pre| + |t|] == t;
    assert OccursAt(s, t, |pre|);
    var r := Find(s, t);
    assert r.Some?;
    assert s[r.value..r.value + |t|][0] == s[r.value];
    assert forall j :: 0 <= j < |pre| ==> s[j] == pre[j];
  }

  /** A text that lacks one of the characters of `t` does not contain `t`. */
  lemma LacksChar(s: string, t: string, k: nat)
    requires k < |t| && Lacks(s, t[k])
    ensures !Contains(s, t)
  {
    forall i: nat ensures !OccursAt(s, t, i) {
      if i + |t| <= |s| {
        assert s[i..i + |t|][k] == s[i + k];
      }
    }
  }

  /** The first occurrence of a one-character pattern holds that character, and no
      earlier index does. */
  lemma FoundChar(s: string, c: char)
    requires Find(s, [c]).Some?
    ensures var k := Find(s, [c]).value; s[k] == c && Lacks(s[..k], c)
  {
    var k := Find(s, [c]).value;
    assert s[k..k + 1][0] == s[k];
    forall j | 0 <= j < k ensures s[..k][j] != c {
      assert !OccursAt(s, [c], j);
      assert s[j..j + 1] == [s[j]];
    }
  }

  /** The text between the first `q` and the next one holds no `q` and, enclosed in
      the two, occurs in the text. */
  lemma BetweenQuotes(s: string, q: char, qs: nat, qe: nat)
    requires Find(s, [q]) == Some(qs) && Find(s[qs + 1..], [q]) == Some(qe)
    ensures Lacks(s[qs + 1..qs + 1 + qe], q)
    ensures Contains(s, [q] + s[qs + 1..qs + 1 + qe] + [q])
  {
    FoundChar(s, q);
    FoundChar(s[qs + 1..], q);
    QuotedSpan(s, q, qs, qe);
    ContainsAt(s, [q] + s[qs + 1..qs + 1 + qe] + [q], qs);
  }

  lemma QuotedSpan(s: string, q: char, qs: nat, qe: nat)
    requires qs < |s| && s[qs] == q
    requires qe < |s[qs + 1..]| && s[qs + 1..][qe] == q && Lacks(s[qs + 1..][..qe], q)
    ensures Lacks(s[qs + 1..qs + 1 + qe], q)
    ensures OccursAt(s, [q] + s[qs + 1..qs + 1 + qe] + [q], qs)
  {
    var rest := s[qs + 1..];
    var name := s[qs + 1..qs + 1 + qe];
    assert forall i :: 0 <= i < qe ==> name[i] == rest[..qe][i];
    assert name == rest[..qe];
    assert s[qs + 1 + qe] == rest[qe] == q;
    var w := s[qs..qs + qe + 2];
    assert forall i :: 0 <= i < |w| ==> w[i] == ([q] + name + [q])[i];
  }
}
