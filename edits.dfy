/** The edit list both transformers build: `(start_byte, end_byte, replacement)`
    triples, sorted by descending start (`sort_by_key(|(start, _, _)| Reverse(*start))`)
    and spliced into the buffer one after another with `replace_range`. */
module Edits {

  datatype Edit = Edit(start: nat, end: nat, replacement: string)

  /** `s.replace_range(e.start..e.end, &e.replacement)` */
  function ReplaceRange(s: string, e: Edit): (r: string)
    requires e.start <= e.end <= |s|
    ensures |r| == |s| - (e.end - e.start) + |e.replacement|
  {
    s[..e.start] + e.replacement + s[e.end..]
  }

  /** Two ranges do not overlap. */
  predicate Apart(a: Edit, b: Edit) {
    a.end <= b.start || b.end <= a.start
  }

  predicate PairwiseApart(es: seq<Edit>) {
    forall i, j :: 0 <= i < j < |es| ==> Apart(es[i], es[j])
  }

  /** Every range is non-empty and lies within a text of `size` bytes (argument
      lists and object literals span at least their two delimiters). */
  predicate NonEmptyWithin(es: seq<Edit>, size: nat) {
    forall i :: 0 <= i < |es| ==> es[i].start < es[i].end <= size
  }

  /** What the splice needs of the edits a transformer collects: non-empty ranges
      within the text that do not overlap (there are no nested calls among them). */
  predicate Spliceable(es: seq<Edit>, size: nat) {
    NonEmptyWithin(es, size) && PairwiseApart(es)
  }

  /** Each start is at least the next one. */
  predicate SortedByStartDesc(es: seq<Edit>) {
    forall i :: 0 <= i < |es| - 1 ==> es[i].start >= es[i + 1].start
  }

  /** Insert `e` before the first element whose start is not larger, so that equal
      starts keep their order (the sort is stable). */
  function Insert(e: Edit, es: seq<Edit>): (r: seq<Edit>)
    requires SortedByStartDesc(es)
    ensures multiset(r) == multiset(es) + multiset{e}
    ensures r[0] == e || (es != [] && r[0] == es[0])
    ensures SortedByStartDesc(r)
  {
    if es == [] || e.start >= es[0].start then
      [e] + es
    else
      assert es == [es[0]] + es[1..];
      [es[0]] + Insert(e, es[1..])
  }

  /** The edits sorted by descending start, stably. */
  function SortByStartDesc(es: seq<Edit>): (r: seq<Edit>)
    ensures multiset(r) == multiset(es)
    ensures |r| == |es|
    ensures SortedByStartDesc(r)
  {
    if es == [] then []
    else
      assert es == [es[0]] + es[1..];
      Insert(es[0], SortByStartDesc(es[1..]))
  }

  /** Every element of a sequence with the multiset of `es` plus `e` is `e` or comes from `es`. */
  lemma MembersOf(e: Edit, es: seq<Edit>, r: seq<Edit>)
    requires multiset(r) == multiset(es) + multiset{e}
    ensures forall x :: x in r ==> x == e || x in es
  {
    forall x | x in r ensures x == e || x in es {
      assert x in multiset(r);
    }
  }

  /** Inserting an edit that overlaps none of the others keeps them non-overlapping. */
  lemma {:induction false} InsertApart(e: Edit, es: seq<Edit>)
    requires SortedByStartDesc(es) && PairwiseApart(es)
    requires forall x :: x in es ==> Apart(e, x)
    ensures PairwiseApart(Insert(e, es))
    decreases |es|
  {
    var r := Insert(e, es);
    if es == [] || e.start >= es[0].start {
      assert r == [e] + es;
      forall i, j | 0 <= i < j < |r| ensures Apart(r[i], r[j]) {
        if i == 0 { assert r[j] == es[j - 1]; } else { assert r[i] == es[i - 1] && r[j] == es[j - 1]; }
      }
    } else {
      var tail := es[1..];
      InsertApart(e, tail);
      var rest := Insert(e, tail);
      assert r == [es[0]] + rest;
      MembersOf(e, tail, rest);
      forall i, j | 0 <= i < j < |r| ensures Apart(r[i], r[j]) {
        if i == 0 {
          assert r[j] == rest[j - 1];
          assert r[j] in rest;
          if r[j] != e {
            var k :| 0 <= k < |tail| && tail[k] == r[j];
            assert Apart(es[0], es[k + 1]);
          } else {
            assert Apart(e, es[0]);
          }
        } else {
          assert r[i] == rest[i - 1] && r[j] == rest[j - 1];
        }
      }
    }
  }

  /** Sorting keeps non-overlapping edits non-overlapping. */
  lemma {:induction false} SortApart(es: seq<Edit>)
    requires PairwiseApart(es)
    ensures PairwiseApart(SortByStartDesc(es))
    decreases |es|
  {
    if es != [] {
      var tail := es[1..];
      SortApart(tail);
      var rest := SortByStartDesc(tail);
      forall x | x in rest ensures Apart(es[0], x) {
        assert x in multiset(rest);
        var k :| 0 <= k < |tail| && tail[k] == x;
        assert Apart(es[0], es[k + 1]);
      }
      InsertApart(es[0], rest);
    }
  }

  /** Each range ends before the one before it (in list order) starts. */
  predicate DescendingChain(es: seq<Edit>) {
    forall i, j :: 0 <= i < j < |es| ==> es[j].end <= es[i].start
  }

  /** The edits can be spliced in list order into a text of `size` bytes. */
  predicate Chain(es: seq<Edit>, size: nat) {
    (forall i :: 0 <= i < |es| ==> es[i].start <= es[i].end) &&
    DescendingChain(es) &&
    (es != [] ==> es[0].end <= size)
  }

  /** Every `replace_range` of the splice loop lies within the buffer as it is when
      that edit is applied; `replace_range` panics otherwise. */
  predicate InBounds(s: string, es: seq<Edit>)
    decreases |es|
  {
    es == [] ||
    (es[0].start <= es[0].end <= |s| && InBounds(ReplaceRange(s, es[0]), es[1..]))
  }

  /** Splicing the edits one after another, in list order, into the changing buffer:
      the loop of `transform_file`. */
  function SpliceAll(s: string, es: seq<Edit>): string
    requires InBounds(s, es)
    decreases |es|
  {
    if es == [] then s
    else SpliceAll(ReplaceRange(s, es[0]), es[1..])
  }

  /** The splice loop of `transform_file` (src/transformer/python.rs and
      src/transformer/typescript.rs), which applies the sorted edits in order. */
  method SpliceDescending(source: string, es: seq<Edit>) returns (out: string)
    requires InBounds(source, es)
    ensures out == SpliceAll(source, es)
  {
    out := source;
    var i := 0;
    while i < |es|
      invariant 0 <= i <= |es|
      invariant InBounds(out, es[i..])
      invariant SpliceAll(out, es[i..]) == SpliceAll(source, es)
    {
      assert es[i..][1..] == es[i + 1..];
      out := ReplaceRange(out, es[i]);
      i := i + 1;
    }
  }

  /** A chain stays in bounds: each edit ends before the text the earlier edits
      changed, so every `replace_range` is within the buffer. */
  lemma {:induction false} ChainInBounds(s: string, es: seq<Edit>)
    requires Chain(es, |s|)
    ensures InBounds(s, es)
    decreases |es|
  {
    if es != [] {
      var t := ReplaceRange(s, es[0]);
      ChainTail(es, |s|);
      ChainWider(es[1..], es[0].start, |t|);
      ChainInBounds(t, es[1..]);
    }
  }

  /** Edits in ascending order, non-overlapping, lying within a text of `size` bytes. */
  predicate Ascending(es: seq<Edit>, size: nat) {
    (forall i :: 0 <= i < |es| ==> es[i].start <= es[i].end <= size) &&
    (forall i, j :: 0 <= i < j < |es| ==> es[i].end <= es[j].start)
  }

  /** The text the ascending edits describe, read off the original text alone: the
      original up to the last range (with the earlier edits in it), the last
      replacement, and the original after the last range. */
  function Stitch(s: string, es: seq<Edit>): string
    requires Ascending(es, |s|)
    decreases |es|
  {
    if es == [] then s
    else
      var e := es[|es| - 1];
      var init := es[..|es| - 1];
      assert Ascending(init, e.start) by {
        forall i | 0 <= i < |init| ensures init[i].end <= e.start {
          assert init[i] == es[i];
        }
      }
      Stitch(s[..e.start], init) + e.replacement + s[e.end..]
  }

  function Reverse(es: seq<Edit>): (r: seq<Edit>)
    ensures |r| == |es|
    ensures forall i :: 0 <= i < |es| ==> r[i] == es[|es| - 1 - i]
  {
    if es == [] then [] else Reverse(es[1..]) + [es[0]]
  }

  /** Dropping the first edit of a chain leaves a chain within the text before it. */
  lemma ChainTail(es: seq<Edit>, size: nat)
    requires es != [] && Chain(es, size)
    ensures Chain(es[1..], es[0].start)
  {
  }

  /** A chain within a text stays one within any longer text. */
  lemma ChainWider(es: seq<Edit>, size: nat, size2: nat)
    requires Chain(es, size) && size <= size2
    ensures Chain(es, size2)
  {
  }

  /** Sorted neighbours make a sorted sequence. */
  lemma {:induction false} SortedPairwise(es: seq<Edit>)
    requires SortedByStartDesc(es)
    ensures forall i, j :: 0 <= i < j < |es| ==> es[i].start >= es[j].start
    decreases |es|
  {
    if es != [] {
      var tail := es[1..];
      assert SortedByStartDesc(tail) by {
        forall i | 0 <= i < |tail| - 1 ensures tail[i].start >= tail[i + 1].start {
          assert tail[i] == es[i + 1] && tail[i + 1] == es[i + 2];
        }
      }
      SortedPairwise(tail);
      forall i, j | 0 <= i < j < |es| ensures es[i].start >= es[j].start {
        assert es[j] == tail[j - 1];
        if i > 0 { assert es[i] == tail[i - 1]; } else if j > 1 { assert es[1] == tail[0]; }
      }
    }
  }

  /** The sorted, non-overlapping, non-empty edits form a chain. */
  lemma SortedApartIsChain(es: seq<Edit>, size: nat)
    requires SortedByStartDesc(es) && PairwiseApart(es) && NonEmptyWithin(es, size)
    ensures Chain(es, size)
  {
    SortedPairwise(es);
    forall i, j | 0 <= i < j < |es| ensures es[j].end <= es[i].start {
      assert Apart(es[i], es[j]);
    }
  }

  /** The edits of a transformer, once sorted, can be spliced in order. */
  lemma SortedEditsChain(es: seq<Edit>, size: nat)
    requires NonEmptyWithin(es, size) && PairwiseApart(es)
    ensures Chain(SortByStartDesc(es), size)
  {
    var r := SortByStartDesc(es);
    forall i | 0 <= i < |r| ensures r[i].start < r[i].end <= size {
      assert r[i] in multiset(es);
    }
    SortApart(es);
    SortedApartIsChain(r, size);
  }

  lemma {:induction false} SpliceKeepsSuffix(p: string, t: string, es: seq<Edit>)
    requires Chain(es, |p|)
    ensures InBounds(p, es) && InBounds(p + t, es)
    ensures SpliceAll(p + t, es) == SpliceAll(p, es) + t
    decreases |es|
  {
    ChainInBounds(p, es);
    ChainInBounds(p + t, es);
    if es != [] {
      var e := es[0];
      assert ReplaceRange(p + t, e) == ReplaceRange(p, e) + t by {
        assert (p + t)[..e.start] == p[..e.start];
        assert (p + t)[e.end..] == p[e.end..] + t;
      }
      ChainTail(es, |p|);
      ChainWider(es[1..], e.start, |ReplaceRange(p, e)|);
      SpliceKeepsSuffix(ReplaceRange(p, e), t, es[1..]);
    }
  }

  /** The ranges before the last of an ascending list lie before its start. */
  /** A chain, read backwards, is an ascending list. */
  lemma ChainReversed(es: seq<Edit>, size: nat)
    requires Chain(es, size)
    ensures Ascending(Reverse(es), size)
  {
    var r := Reverse(es);
    var n := |es|;
    forall i | 0 <= i < n ensures r[i].end <= size {
      assert r[i] == es[n - 1 - i];
      if n - 1 - i > 0 { assert es[n - 1 - i].end <= es[0].start; }
    }
    forall i, j | 0 <= i < j < n ensures r[i].end <= r[j].start {
      assert r[i] == es[n - 1 - i] && r[j] == es[n - 1 - j];
    }
  }

  /** For non-overlapping ranges, splicing in descending order into the changing
      buffer gives the text read off the original: each range is replaced once, at its
      original offsets, and every byte outside the ranges is kept in place. */
  lemma {:induction false} SpliceIsStitch(s: string, es: seq<Edit>)
    requires Chain(es, |s|)
    ensures InBounds(s, es) && Ascending(Reverse(es), |s|)
    ensures SpliceAll(s, es) == Stitch(s, Reverse(es))
    decreases |es|
  {
    ChainInBounds(s, es);
    ChainReversed(es, |s|);
    if es != [] {
      var e := es[0];
      var rest := es[1..];
      var p := s[..e.start];
      var t := e.replacement + s[e.end..];
      assert ReplaceRange(s, e) == p + t;
      ChainTail(es, |s|);
      SpliceKeepsSuffix(p, t, rest);
      SpliceIsStitch(p, rest);
      var rev := Reverse(es);
      assert rev[|rev| - 1] == e;
      assert rev[..|rev| - 1] == Reverse(rest);
    }
  }

  /** The edits sorted by descending start and spliced in that order: the splice of
      `transform_file`, which does not panic exactly when `InBounds` holds. */
  function ApplyEdits(s: string, es: seq<Edit>): string
    requires InBounds(s, SortByStartDesc(es))
  {
    SpliceAll(s, SortByStartDesc(es))
  }

  /** Edits that do not overlap never make the splice panic, and sorting and splicing
      them gives the original text with every range replaced once, at its original
      offsets, in ascending order, and every byte outside the ranges kept. */
  lemma ApplyEditsIsStitch(s: string, es: seq<Edit>)
    requires Spliceable(es, |s|)
    ensures InBounds(s, SortByStartDesc(es))
    ensures Ascending(Reverse(SortByStartDesc(es)), |s|)
    ensures ApplyEdits(s, es) == Stitch(s, Reverse(SortByStartDesc(es)))
  {
    SortedEditsChain(es, |s|);
    SpliceIsStitch(s, SortByStartDesc(es));
  }

  /** A single edit is one `replace_range`. */
  lemma ApplyOneEdit(s: string, e: Edit)
    requires e.start < e.end <= |s|
    ensures InBounds(s, SortByStartDesc([e]))
    ensures ApplyEdits(s, [e]) == s[..e.start] + e.replacement + s[e.end..]
  {
    assert SortByStartDesc([e]) == Insert(e, SortByStartDesc([])) == [e];
    assert SpliceAll(s, [e]) == SpliceAll(ReplaceRange(s, e), []);
  }

  /** The text outside the outermost ranges survives the splice: the result starts
      with the text before the first range and ends with the text after the last. */
  lemma {:induction false} StitchKeepsEnds(s: string, es: seq<Edit>)
    requires es != [] && Ascending(es, |s|)
    ensures |s[..es[0].start]| <= |Stitch(s, es)|
    ensures Stitch(s, es)[..es[0].start] == s[..es[0].start]
    ensures |s[es[|es| - 1].end..]| <= |Stitch(s, es)|
    ensures Stitch(s, es)[|Stitch(s, es)| - |s[es[|es| - 1].end..]|..] == s[es[|es| - 1].end..]
    decreases |es|
  {
    var e := es[|es| - 1];
    var init := es[..|es| - 1];
    var t := s[..e.start];
    assert Ascending(init, e.start) by {
      forall i | 0 <= i < |init| ensures init[i].end <= e.start {
        assert init[i] == es[i];
      }
    }
    var r := Stitch(s, es);
    assert r == Stitch(t, init) + e.replacement + s[e.end..];
    if init == [] {
      assert Stitch(t, init) == t;
    } else {
      StitchKeepsEnds(t, init);
      assert init[0] == es[0];
      assert t[..es[0].start] == s[..es[0].start];
    }
  }

  // ---------------------------------------------------------------------------
  // Nested call sites

  /** The range of `a` lies within the range of `b`. */
  predicate Within(a: Edit, b: Edit) {
    b.start <= a.start && a.end <= b.end
  }

  /** Ranges of syntax-tree nodes: any two are disjoint or one lies within the other. */
  predicate Laminar(es: seq<Edit>) {
    forall i, j :: 0 <= i < j < |es| ==> Apart(es[i], es[j]) || Within(es[i], es[j]) || Within(es[j], es[i])
  }

  /** The edit at `i` lies within another edit of the list; of two equal ranges, the
      later one counts as enclosed. */
  predicate Enclosed(es: seq<Edit>, i: nat)
    requires i < |es|
  {
    exists j :: 0 <= j < |es| && j != i && Within(es[i], es[j]) && (j < i || !Within(es[j], es[i]))
  }

  /** The edits from index `i` on that no other edit encloses, in list order. */
  function OutermostFrom(es: seq<Edit>, i: nat): (r: seq<Edit>)
    requires i <= |es|
    ensures forall x :: x in r ==> exists k :: i <= k < |es| && x == es[k] && !Enclosed(es, k)
    decreases |es| - i
  {
    if i == |es| then []
    else if Enclosed(es, i) then OutermostFrom(es, i + 1)
    else [es[i]] + OutermostFrom(es, i + 1)
  }

  /** The edits no other edit encloses: an enclosing call's replacement is computed
      from the original text, nested calls included, so it stands for both. */
  function Outermost(es: seq<Edit>): seq<Edit> {
    OutermostFrom(es, 0)
  }

  /** Two edits of a laminar list that are not enclosed do not overlap. */
  lemma NotEnclosedApart(es: seq<Edit>, i: nat, k: nat)
    requires Laminar(es) && i < k < |es| && !Enclosed(es, i) && !Enclosed(es, k)
    ensures Apart(es[i], es[k])
  {
    assert !Within(es[k], es[i]);
    assert !Within(es[i], es[k]);
  }

  lemma {:induction false} OutermostFromApart(es: seq<Edit>, i: nat)
    requires Laminar(es) && i <= |es|
    ensures PairwiseApart(OutermostFrom(es, i))
    decreases |es| - i
  {
    if i < |es| {
      OutermostFromApart(es, i + 1);
      var tail := OutermostFrom(es, i + 1);
      if !Enclosed(es, i) {
        var r := [es[i]] + tail;
        forall m, n | 0 <= m < n < |r| ensures Apart(r[m], r[n]) {
          assert r[n] == tail[n - 1] && r[n] in tail;
          var k :| i + 1 <= k < |es| && r[n] == es[k] && !Enclosed(es, k);
          if m == 0 {
            NotEnclosedApart(es, i, k);
          } else {
            assert r[m] == tail[m - 1];
          }
        }
      }
    }
  }

  /** The outermost edits of the ranges of a syntax tree do not overlap, so they can be
      spliced. */
  lemma OutermostSpliceable(es: seq<Edit>, size: nat)
    requires Laminar(es) && NonEmptyWithin(es, size)
    ensures Spliceable(Outermost(es), size)
  {
    OutermostFromApart(es, 0);
    var r := Outermost(es);
    forall m | 0 <= m < |r| ensures r[m].start < r[m].end <= size {
      assert r[m] in r;
    }
  }

  /** The splice with nested edits dropped first. */
  function ApplyOutermost(s: string, es: seq<Edit>): string
    requires Laminar(es) && NonEmptyWithin(es, |s|)
  {
    OutermostSpliceable(es, |s|);
    ApplyEditsIsStitch(s, Outermost(es));
    ApplyEdits(s, Outermost(es))
  }

  /** For the ranges of a syntax tree, splicing the outermost edits never panics and
      gives the original text with each outermost range replaced once, at its original
      offsets, and every byte outside them kept. */
  lemma ApplyOutermostIsStitch(s: string, es: seq<Edit>)
    requires Laminar(es) && NonEmptyWithin(es, |s|)
    ensures Spliceable(Outermost(es), |s|)
    ensures Ascending(Reverse(SortByStartDesc(Outermost(es))), |s|)
    ensures ApplyOutermost(s, es) == Stitch(s, Reverse(SortByStartDesc(Outermost(es))))
  {
    OutermostSpliceable(es, |s|);
    ApplyEditsIsStitch(s, Outermost(es));
  }

  /** Of an edit and one nested in it, only the enclosing one is kept. */
  lemma OutermostOfNested(a: Edit, b: Edit)
    requires Within(b, a) && !Within(a, b)
    ensures Laminar([a, b])
    ensures Outermost([a, b]) == [a]
  {
    var es := [a, b];
    assert Enclosed(es, 1) by { assert Within(es[1], es[0]) && !Within(es[0], es[1]); }
    assert !Enclosed(es, 0) by {
      forall j | 0 <= j < |es| && j != 0 ensures !Within(es[0], es[j]) { assert j == 1; }
    }
    assert OutermostFrom(es, 2) == [];
    assert OutermostFrom(es, 1) == [];
  }

  /** Two edits with increasing starts are spliced last one first. */
  lemma SpliceTwo(s: string, a: Edit, b: Edit)
    requires a.start < b.start && b.start <= b.end <= |s|
    requires a.start <= a.end <= |ReplaceRange(s, b)|
    ensures SortByStartDesc([a, b]) == [b, a]
    ensures InBounds(s, SortByStartDesc([a, b]))
    ensures ApplyEdits(s, [a, b]) == ReplaceRange(ReplaceRange(s, b), a)
  {
    assert [a, b][1..] == [b] && [b][1..] == [];
    assert SortByStartDesc([b]) == Insert(b, []) == [b];
    assert Insert(a, [b]) == [b] + Insert(a, []) == [b, a];
    var t := ReplaceRange(s, b);
    assert [b, a][1..] == [a] && [a][1..] == [];
    assert InBounds(ReplaceRange(t, a), []);
    assert InBounds(t, [a]);
    assert SpliceAll(s, [b, a]) == SpliceAll(t, [a]) == SpliceAll(ReplaceRange(t, a), []);
  }

  /** Two nested call sites: `f(g())` with its argument list `(g())` rewritten to
      `(g(),b)` and the inner `()` to `(k,b)`. The splice applies the inner edit first
      and then replaces the outer range at its original offsets in the grown buffer, so
      the tail of the inner replacement is left behind the outer one; with the nested
      edit dropped, the outer replacement stands alone. */
  lemma NestedEditsGarbled(s: string, outer: Edit, inner: Edit)
    requires s == "f(g())" && outer == Edit(1, 6, "(g(),b)") && inner == Edit(3, 5, "(k,b)")
    ensures InBounds(s, SortByStartDesc([outer, inner]))
    ensures ApplyEdits(s, [outer, inner]) == "f(g(),b)b))"
    ensures Laminar([outer, inner]) && NonEmptyWithin([outer, inner], |s|)
    ensures ApplyOutermost(s, [outer, inner]) == "f(g(),b)"
  {
    var t := ReplaceRange(s, inner);
    InnerFirst(s, inner, t);
    SpliceTwo(s, outer, inner);
    OuterAfterInner(t, outer);
    OutermostOfNested(outer, inner);
    ApplyOneEdit(s, outer);
    OuterAlone(s, outer);
  }

  lemma InnerFirst(s: string, inner: Edit, t: string)
    requires s == "f(g())" && inner == Edit(3, 5, "(k,b)") && t == ReplaceRange(s, inner)
    ensures t == "f(g(k,b))"
  {
    assert s[..3] == "f(g" && s[5..] == ")";
  }

  lemma OuterAfterInner(t: string, outer: Edit)
    requires t == "f(g(k,b))" && outer == Edit(1, 6, "(g(),b)")
    ensures ReplaceRange(t, outer) == "f(g(),b)b))"
  {
    assert t[..1] == "f" && t[6..] == "b))";
  }

  lemma OuterAlone(s: string, outer: Edit)
    requires s == "f(g())" && outer == Edit(1, 6, "(g(),b)")
    ensures s[..outer.start] + outer.replacement + s[outer.end..] == "f(g(),b)"
  {
    assert s[..1] == "f" && s[6..] == "";
  }
}
