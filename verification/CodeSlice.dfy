/** Slicing a source file: merging the line ranges of the wanted methods, and
    clamping a window around a focus line. */
module CodeSlice {
  import opened Sorting
  import opened Windows

  /** An inclusive 1-based line range. */
  datatype Range = Range(start: int, end: int)

  predicate Holds(r: Range, x: int) {
    r.start <= x <= r.end
  }

  ghost predicate InSome(s: seq<Range>, x: int) {
    exists i :: 0 <= i < |s| && Holds(s[i], x)
  }

  /** What _java_named_method_span returns: a range that is not empty. */
  ghost predicate NonEmptyRanges(s: seq<Range>) {
    forall i :: 0 <= i < |s| ==> s[i].start <= s[i].end
  }

  predicate ByStart(a: Range, b: Range) {
    a.start < b.start || (a.start == b.start && a.end <= b.end)
  }

  /** Folds the sorted ranges into `merged`, whose last range may still grow. */
  function MergeInto(merged: seq<Range>, rest: seq<Range>): seq<Range>
    requires merged != []
    decreases |rest|
  {
    if rest == [] then merged
    else
      var last, r := merged[|merged| - 1], rest[0];
      if r.start <= last.end + 1 then
        MergeInto(merged[..|merged| - 1] + [Range(last.start, Max(last.end, r.end))], rest[1..])
      else MergeInto(merged + [r], rest[1..])
  }

  method MergeSpans(spans: seq<Range>) returns (merged: seq<Range>)
    requires spans != []
    ensures merged == Merged(spans)
  {
    var ordered := Sort(spans, ByStart);
    merged := [ordered[0]];
    for i := 1 to |ordered|
      invariant merged != []
      invariant MergeInto(merged, ordered[i..]) == Merged(spans)
    {
      var last, r := merged[|merged| - 1], ordered[i];
      assert ordered[i..][0] == r && ordered[i..][1..] == ordered[i + 1..];
      if r.start <= last.end + 1 {
        merged := merged[..|merged| - 1] + [Range(last.start, Max(last.end, r.end))];
      } else {
        merged := merged + [r];
      }
    }
    assert ordered[|ordered|..] == [];
  }

  function Merged(spans: seq<Range>): seq<Range>
    requires spans != []
  {
    var ordered := Sort(spans, ByStart);
    MergeInto([ordered[0]], ordered[1..])
  }

  /** The canonical form of a set of lines: ranges in order, any two neighbours
      separated by at least one line that is in neither. */
  ghost predicate Canonical(s: seq<Range>) {
    && NonEmptyRanges(s)
    && forall i, j :: 0 <= i < j < |s| ==> s[i].end + 1 < s[j].start
  }

  lemma InSomeConcat(a: seq<Range>, b: seq<Range>, x: int)
    ensures InSome(a + b, x) <==> InSome(a, x) || InSome(b, x)
  {
    var s := a + b;
    if i :| 0 <= i < |a| && Holds(a[i], x) {
      assert s[i] == a[i];
    }
    if i :| 0 <= i < |b| && Holds(b[i], x) {
      assert s[|a| + i] == b[i];
    }
    if i :| 0 <= i < |s| && Holds(s[i], x) {
      assert s[i] == if i < |a| then a[i] else b[i - |a|];
    }
  }

  lemma InSomeOne(r: Range, x: int)
    ensures InSome([r], x) <==> Holds(r, x)
  {
    assert [r][0] == r;
  }

  /** One step of the fold: the lines held stay the lines of both parts. */
  lemma {:induction false} MergeIntoIs(merged: seq<Range>, rest: seq<Range>, x: int)
    requires merged != [] && Canonical(merged) && NonEmptyRanges(rest) && SortedBy(rest, ByStart)
    requires forall i :: 0 <= i < |rest| ==> merged[|merged| - 1].start <= rest[i].start
    ensures Canonical(MergeInto(merged, rest))
    ensures InSome(MergeInto(merged, rest), x) <==> InSome(merged, x) || InSome(rest, x)
    decreases |rest|
  {
    if rest != [] {
      var front, last, r := merged[..|merged| - 1], merged[|merged| - 1], rest[0];
      assert merged == front + [last] && rest == [r] + rest[1..];
      InSomeConcat(front, [last], x);
      InSomeConcat([r], rest[1..], x);
      InSomeOne(last, x);
      InSomeOne(r, x);
      if r.start <= last.end + 1 {
        var grown := Range(last.start, Max(last.end, r.end));
        InSomeConcat(front, [grown], x);
        InSomeOne(grown, x);
        MergeIntoIs(front + [grown], rest[1..], x);
      } else {
        InSomeConcat(merged, [r], x);
        MergeIntoIs(merged + [r], rest[1..], x);
      }
    }
  }

  lemma ByStartIsPreorder()
    ensures TotalPreorder(ByStart)
  {
  }

  /** Merging gives the canonical form of exactly the lines the ranges hold. */
  lemma MergedIsCanonical(spans: seq<Range>, x: int)
    requires spans != [] && NonEmptyRanges(spans)
    ensures Canonical(Merged(spans))
    ensures InSome(Merged(spans), x) <==> InSome(spans, x)
  {
    var ordered := Sort(spans, ByStart);
    ByStartIsPreorder();
    SortSorts(spans, ByStart);
    SortKeepsLines(spans, x);
    FoldIsCanonical(ordered, x);
  }

  lemma FoldIsCanonical(ordered: seq<Range>, x: int)
    requires ordered != [] && NonEmptyRanges(ordered) && SortedBy(ordered, ByStart)
    ensures Canonical(MergeInto([ordered[0]], ordered[1..]))
    ensures InSome(MergeInto([ordered[0]], ordered[1..]), x) <==> InSome(ordered, x)
  {
    assert ordered == [ordered[0]] + ordered[1..];
    forall i | 0 <= i < |ordered[1..]|
      ensures ordered[0].start <= ordered[1..][i].start
    {
      assert ByStart(ordered[0], ordered[i + 1]);
    }
    MergeIntoIs([ordered[0]], ordered[1..], x);
    InSomeConcat([ordered[0]], ordered[1..], x);
  }

  lemma SortKeepsLines(spans: seq<Range>, x: int)
    ensures InSome(Sort(spans, ByStart), x) <==> InSome(spans, x)
    ensures NonEmptyRanges(spans) ==> NonEmptyRanges(Sort(spans, ByStart))
  {
    var ordered := Sort(spans, ByStart);
    SortMembers(spans, ByStart);
    assert forall i :: 0 <= i < |ordered| ==> ordered[i] in spans;
    if i :| 0 <= i < |spans| && Holds(spans[i], x) {
      assert spans[i] in ordered;
      var j :| 0 <= j < |ordered| && ordered[j] == spans[i];
    }
    if i :| 0 <= i < |ordered| && Holds(ordered[i], x) {
      var j :| 0 <= j < |spans| && spans[j] == ordered[i];
    }
  }

  // ----- the canonical form is unique -----

  ghost predicate SameLines(a: seq<Range>, b: seq<Range>) {
    forall x :: InSome(a, x) <==> InSome(b, x)
  }

  lemma CanonicalTail(a: seq<Range>)
    requires Canonical(a) && a != []
    ensures Canonical(a[1..])
    ensures forall x :: InSome(a[1..], x) <==> InSome(a, x) && x > a[0].end
    ensures forall x :: InSome(a, x) ==> x >= a[0].start
  {
    var t := a[1..];
    forall x
      ensures InSome(t, x) <==> InSome(a, x) && x > a[0].end
    {
      if i :| 0 <= i < |t| && Holds(t[i], x) {
        assert a[i + 1] == t[i];
      }
      if i :| 0 <= i < |a| && Holds(a[i], x) {
        assert i > 0 ==> t[i - 1] == a[i];
      }
    }
  }

  lemma FirstRange(a: seq<Range>, b: seq<Range>)
    requires Canonical(a) && Canonical(b) && a != [] && b != [] && SameLines(a, b)
    ensures b[0].start <= a[0].start && b[0].end <= a[0].end
  {
    CanonicalTail(a);
    CanonicalTail(b);
    assert Holds(a[0], a[0].start) && InSome(a, a[0].start);
    assert Holds(b[0], b[0].start) && InSome(b, b[0].start);
    var x := a[0].end + 1;
    assert !InSome(a, x) by {
      assert forall i :: 0 < i < |a| ==> a[0].end + 1 < a[i].start;
    }
    assert !InSome(b, x) && !Holds(b[0], x);
  }

  /** Two canonical lists that hold the same lines are the same list. */
  lemma {:induction false} CanonicalIsUnique(a: seq<Range>, b: seq<Range>)
    requires Canonical(a) && Canonical(b) && SameLines(a, b)
    ensures a == b
  {
    assert a != [] ==> Holds(a[0], a[0].start) && InSome(a, a[0].start);
    assert b != [] ==> Holds(b[0], b[0].start) && InSome(b, b[0].start);
    if a != [] && b != [] {
      FirstRange(a, b);
      FirstRange(b, a);
      CanonicalTail(a);
      CanonicalTail(b);
      CanonicalIsUnique(a[1..], b[1..]);
      assert a == [a[0]] + a[1..] && b == [b[0]] + b[1..];
    }
  }

  /** So the order in which the methods were named does not matter. */
  lemma MergeIgnoresOrder(s: seq<Range>, t: seq<Range>)
    requires s != [] && t != [] && NonEmptyRanges(s) && NonEmptyRanges(t) && SameLines(s, t)
    ensures Merged(s) == Merged(t)
  {
    forall x
      ensures InSome(Merged(s), x) <==> InSome(Merged(t), x)
    {
      MergedIsCanonical(s, x);
      MergedIsCanonical(t, x);
    }
    MergedIsCanonical(s, 0);
    MergedIsCanonical(t, 0);
    CanonicalIsUnique(Merged(s), Merged(t));
  }

  // ----- the lines that are emitted -----

  function LinesOf(r: Range): seq<int> {
    seq(Max(0, r.end - r.start + 1), i => r.start + i)
  }

  /** The line numbers of the extracted text, part by part. */
  function Emitted(merged: seq<Range>): seq<int> {
    if merged == [] then [] else LinesOf(merged[0]) + Emitted(merged[1..])
  }

  lemma {:induction false} EmittedOnceInOrder(merged: seq<Range>)
    requires Canonical(merged)
    ensures forall x :: x in Emitted(merged) <==> InSome(merged, x)
    ensures forall i, j :: 0 <= i < j < |Emitted(merged)| ==> Emitted(merged)[i] < Emitted(merged)[j]
  {
    if merged != [] {
      CanonicalTail(merged);
      EmittedOnceInOrder(merged[1..]);
      var first, rest := LinesOf(merged[0]), Emitted(merged[1..]);
      forall x
        ensures x in first <==> Holds(merged[0], x)
      {
        if Holds(merged[0], x) {
          assert first[x - merged[0].start] == x;
        }
      }
      assert InSome(merged, merged[0].start) by {
        assert Holds(merged[0], merged[0].start);
      }
      forall x
        ensures InSome(merged, x) <==> Holds(merged[0], x) || InSome(merged[1..], x)
      {
        InSomeConcat([merged[0]], merged[1..], x);
        InSomeOne(merged[0], x);
        assert merged == [merged[0]] + merged[1..];
      }
      forall j | 0 <= j < |rest|
        ensures rest[j] > merged[0].end
      {
        assert rest[j] in rest;
      }
    }
  }

  /** Named-method extraction emits every line that some wanted method holds
      exactly once, in file order. */
  lemma ExtractionEmitsOnce(spans: seq<Range>)
    requires spans != [] && NonEmptyRanges(spans)
    ensures forall x :: x in Emitted(Merged(spans)) <==> InSome(spans, x)
    ensures forall i, j :: 0 <= i < j < |Emitted(Merged(spans))| ==>
      Emitted(Merged(spans))[i] < Emitted(Merged(spans))[j]
  {
    MergedIsCanonical(spans, 0);
    EmittedOnceInOrder(Merged(spans));
    forall x
      ensures InSome(Merged(spans), x) <==> InSome(spans, x)
    {
      MergedIsCanonical(spans, x);
    }
  }

  // ----- clamping a window -----

  /** The window of at most `maxLines` lines; a focus of 0 stands for none. */
  method ClampWindow(start0: int, end0: int, total: int, maxLines: int, focusLine: int) returns (start: int, end: int)
    ensures
      var lo, hi := Max(1, start0), Min(total, Max(Max(1, start0), end0));
      && (hi - lo + 1 <= maxLines ==> start == lo && end == hi)
      // a larger one is cut to exactly `maxLines` lines, to no line if that is below one
      && (hi - lo + 1 > maxLines ==> lo <= start && end <= hi && end - start + 1 == maxLines)
      // the focus is lost exactly by small windows that reach too far down
      && (hi - lo + 1 > maxLines ==>
            var focus := Max(lo, Min(if focusLine != 0 then focusLine else hi, hi));
            start <= focus <= end <==> maxLines >= 60 || hi - focus < maxLines)
  {
    start := Max(1, start0);
    end := Min(total, Max(start, end0));
    if end - start + 1 <= maxLines {
      return;
    }
    var focus := if focusLine != 0 then focusLine else end;
    focus := Max(start, Min(focus, end));
    var newStart := Max(start, focus - maxLines + 60);
    var newEnd := Min(end, newStart + maxLines - 1);
    if newEnd - newStart + 1 < maxLines {
      newStart := Max(start, newEnd - maxLines + 1);
    }
    return newStart, newEnd;
  }
}
