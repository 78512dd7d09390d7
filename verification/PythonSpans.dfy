/** Symbol spans of an indentation-based language. */
module PythonSpans {
  import opened Common
  import opened Text
  import opened Windows

  datatype SymbolKind = MethodSymbol | ClassSymbol | FunctionSymbol

  /** An inclusive 1-based line range for a named symbol. */
  datatype SymbolSpan = SymbolSpan(name: string, kind: SymbolKind, start: nat, end: nat)

  /** What the two header patterns find in a line, if anything. */
  datatype Header = Header(indent: nat, name: string, kind: SymbolKind)

  type Recognizer = string -> Option<Header>

  /** The patterns demand a keyword, so a header is never a blank line. */
  ghost predicate HeadersShow(rec: Recognizer) {
    forall l :: rec(l).Some? ==> !IsBlank(l)
  }

  /** A header at a 1-based line. */
  datatype Start = Start(line: nat, header: Header)

  function Starts(lines: seq<string>, rec: Recognizer): seq<Start> {
    if lines == [] then []
    else
      var k := |lines| - 1;
      Starts(lines[..k], rec) + (if rec(lines[k]).Some? then [Start(k + 1, rec(lines[k]).value)] else [])
  }

  /** The last line of the block of starts[i], found from starts[k] on: it ends
      where a header of no greater indent begins. */
  function BlockEnd(starts: seq<Start>, i: nat, k: nat, last: nat): int
    requires i < |starts|
    decreases |starts| - k
  {
    if k >= |starts| then last
    else if starts[k].header.indent <= starts[i].header.indent then starts[k].line - 1
    else BlockEnd(starts, i, k + 1, last)
  }

  function TrimTrailingBlank(lines: seq<string>, start: int, end: int): int
    requires 1 <= start && end <= |lines|
    decreases end - start
  {
    if end > start && Strip(lines[end - 1]) == "" then TrimTrailingBlank(lines, start, end - 1) else end
  }

  lemma {:induction false} StartsAt(lines: seq<string>, rec: Recognizer)
    ensures forall i :: 0 <= i < |Starts(lines, rec)| ==>
      var s := Starts(lines, rec)[i];
      1 <= s.line <= |lines| && rec(lines[s.line - 1]) == Some(s.header)
    ensures forall i, j :: 0 <= i < j < |Starts(lines, rec)| ==> Starts(lines, rec)[i].line < Starts(lines, rec)[j].line
  {
    if lines != [] {
      StartsAt(lines[..|lines| - 1], rec);
    }
  }

  /** The end found is the last line before the first later header of no greater
      indent. */
  lemma {:induction false} BlockEndAt(starts: seq<Start>, i: nat, k: nat, last: nat) returns (m: nat)
    requires i < |starts| && k <= |starts|
    ensures k <= m <= |starts|
    ensures forall x :: k <= x < m ==> starts[x].header.indent > starts[i].header.indent
    ensures m < |starts| ==> starts[m].header.indent <= starts[i].header.indent
    ensures BlockEnd(starts, i, k, last) == if m < |starts| then starts[m].line - 1 else last
    decreases |starts| - k
  {
    if k == |starts| || starts[k].header.indent <= starts[i].header.indent {
      m := k;
    } else {
      m := BlockEndAt(starts, i, k + 1, last);
    }
  }

  lemma {:induction false} TrimAt(lines: seq<string>, start: int, end: int)
    requires 1 <= start <= end <= |lines|
    ensures start <= TrimTrailingBlank(lines, start, end) <= end
    ensures forall x :: TrimTrailingBlank(lines, start, end) <= x < end ==> IsBlank(lines[x])
    ensures TrimTrailingBlank(lines, start, end) > start ==> !IsBlank(lines[TrimTrailingBlank(lines, start, end) - 1])
    decreases end - start
  {
    StripEnds(lines[end - 1]);
    if end > start && Strip(lines[end - 1]) == "" {
      TrimAt(lines, start, end - 1);
    }
  }

  lemma BlockEndInFile(lines: seq<string>, starts: seq<Start>, i: nat)
    requires i < |starts| && 1 <= starts[i].line <= |lines|
    requires forall j :: i < j < |starts| ==> starts[i].line < starts[j].line <= |lines|
    ensures starts[i].line <= BlockEnd(starts, i, i + 1, |lines|) <= |lines|
    ensures TrimTrailingBlank(lines, starts[i].line, BlockEnd(starts, i, i + 1, |lines|)) >= starts[i].line
  {
    var m := BlockEndAt(starts, i, i + 1, |lines|);
    TrimAt(lines, starts[i].line, BlockEnd(starts, i, i + 1, |lines|));
  }

  /** The span of starts[i]. */
  function SpanAt(lines: seq<string>, starts: seq<Start>, i: nat): SymbolSpan
    requires i < |starts| && 1 <= starts[i].line <= |lines|
    requires forall j :: i < j < |starts| ==> starts[i].line < starts[j].line <= |lines|
  {
    var end := BlockEnd(starts, i, i + 1, |lines|);
    BlockEndInFile(lines, starts, i);
    SymbolSpan(starts[i].header.name, starts[i].header.kind, starts[i].line,
               TrimTrailingBlank(lines, starts[i].line, end))
  }

  function PythonSpans(lines: seq<string>, rec: Recognizer): seq<SymbolSpan> {
    var starts := Starts(lines, rec);
    StartsAt(lines, rec);
    seq(|starts|, i requires 0 <= i < |starts| => SpanAt(lines, starts, i))
  }

  /** The headers, with their line numbers. */
  method FindStarts(lines: seq<string>, rec: Recognizer) returns (starts: seq<Start>)
    ensures starts == Starts(lines, rec)
  {
    starts := [];
    for idx := 0 to |lines|
      invariant starts == Starts(lines[..idx], rec)
    {
      assert lines[..idx + 1][..idx] == lines[..idx];
      var header := rec(lines[idx]);
      if header.Some? {
        starts := starts + [Start(idx + 1, header.value)];
      }
    }
    assert lines[..|lines|] == lines;
  }

  /** Looks past the deeper headers for the one that ends the block. */
  method FindBlockEnd(starts: seq<Start>, i: nat, last: nat) returns (end: int)
    requires i < |starts|
    ensures end == BlockEnd(starts, i, i + 1, last)
  {
    end := last;
    var k := i + 1;
    while k < |starts| && starts[k].header.indent > starts[i].header.indent
      invariant i + 1 <= k <= |starts|
      invariant BlockEnd(starts, i, i + 1, last) == BlockEnd(starts, i, k, last)
    {
      k := k + 1;
    }
    if k < |starts| {
      end := starts[k].line - 1;
    }
  }

  method TrimLoop(lines: seq<string>, start: int, end: int) returns (trimmed: int)
    requires 1 <= start <= end <= |lines|
    ensures trimmed == TrimTrailingBlank(lines, start, end)
  {
    trimmed := end;
    while trimmed > start && Strip(lines[trimmed - 1]) == ""
      invariant start <= trimmed <= |lines|
      invariant TrimTrailingBlank(lines, start, end) == TrimTrailingBlank(lines, start, trimmed)
    {
      trimmed := trimmed - 1;
    }
  }

  method ExtractPythonSpans(lines: seq<string>, rec: Recognizer) returns (spans: seq<SymbolSpan>)
    ensures spans == PythonSpans(lines, rec)
  {
    var starts := FindStarts(lines, rec);
    StartsAt(lines, rec);
    spans := [];
    for i := 0 to |starts|
      invariant spans == PythonSpans(lines, rec)[..i]
    {
      BlockEndInFile(lines, starts, i);
      var end := FindBlockEnd(starts, i, |lines|);
      end := TrimLoop(lines, starts[i].line, end);
      spans := spans + [SymbolSpan(starts[i].header.name, starts[i].header.kind, starts[i].line, end)];
    }
    assert PythonSpans(lines, rec)[..|starts|] == PythonSpans(lines, rec);
  }

  // ----- what the spans are -----

  ghost predicate Inside(a: SymbolSpan, b: SymbolSpan) {
    b.start < a.start && a.end <= b.end
  }

  /** A span starts at a header and bears its name and kind. */
  lemma SpanBounds(lines: seq<string>, rec: Recognizer, i: nat)
    requires i < |PythonSpans(lines, rec)|
    ensures
      var s := PythonSpans(lines, rec)[i];
      && 1 <= s.start <= s.end <= |lines| && rec(lines[s.start - 1]).Some?
      && s.name == rec(lines[s.start - 1]).value.name && s.kind == rec(lines[s.start - 1]).value.kind
  {
    var starts := Starts(lines, rec);
    StartsAt(lines, rec);
    var m := BlockEndAt(starts, i, i + 1, |lines|);
    TrimAt(lines, starts[i].line, BlockEnd(starts, i, i + 1, |lines|));
  }

  lemma {:induction false} StartHas(lines: seq<string>, rec: Recognizer, x: nat) returns (i: nat)
    requires x < |lines| && rec(lines[x]).Some?
    ensures i < |Starts(lines, rec)| && Starts(lines, rec)[i] == Start(x + 1, rec(lines[x]).value)
  {
    var k := |lines| - 1;
    if x == k {
      i := |Starts(lines[..k], rec)|;
    } else {
      i := StartHas(lines[..k], rec, x);
    }
  }

  /** Every header line starts a span, which is the longest block under it: no
      header inside is as shallow, and up to the next header that is, or the end
      of the file, only blank lines follow. */
  lemma EveryHeaderHasItsBlock(lines: seq<string>, rec: Recognizer, x: nat) returns (i: nat, limit: nat)
    requires x < |lines| && rec(lines[x]).Some?
    ensures i < |PythonSpans(lines, rec)| && PythonSpans(lines, rec)[i].start == x + 1
    ensures PythonSpans(lines, rec)[i].end <= limit <= |lines|
    ensures forall y :: x < y < limit && rec(lines[y]).Some? ==> rec(lines[y]).value.indent > rec(lines[x]).value.indent
    ensures limit < |lines| ==>
      rec(lines[limit]).Some? && rec(lines[limit]).value.indent <= rec(lines[x]).value.indent
    ensures forall y :: PythonSpans(lines, rec)[i].end <= y < limit ==> IsBlank(lines[y])
  {
    var starts := Starts(lines, rec);
    StartsAt(lines, rec);
    i := StartHas(lines, rec, x);
    var m := BlockEndAt(starts, i, i + 1, |lines|);
    limit := if m < |starts| then starts[m].line - 1 else |lines|;
    TrimAt(lines, x + 1, limit);
    forall y | x < y < limit && rec(lines[y]).Some?
      ensures rec(lines[y]).value.indent > rec(lines[x]).value.indent
    {
      var j := StartHas(lines, rec, y);
      assert i < j && (m < |starts| ==> j < m);
    }
  }

  /** The last line of a span carries text. */
  lemma SpanEndsInText(lines: seq<string>, rec: Recognizer, i: nat)
    requires HeadersShow(rec) && i < |PythonSpans(lines, rec)|
    ensures
      var s := PythonSpans(lines, rec)[i];
      1 <= s.start <= s.end <= |lines| && !IsBlank(lines[s.end - 1])
  {
    var starts := Starts(lines, rec);
    StartsAt(lines, rec);
    var m := BlockEndAt(starts, i, i + 1, |lines|);
    TrimAt(lines, starts[i].line, BlockEnd(starts, i, i + 1, |lines|));
  }

  lemma DeeperHeadersNest(lines: seq<string>, rec: Recognizer, i: nat, j: nat)
    requires HeadersShow(rec) && i < j < |PythonSpans(lines, rec)|
    requires forall k :: i < k <= j ==> Starts(lines, rec)[k].header.indent > Starts(lines, rec)[i].header.indent
    ensures Inside(PythonSpans(lines, rec)[j], PythonSpans(lines, rec)[i])
  {
    var starts := Starts(lines, rec);
    StartsAt(lines, rec);
    var n := |lines|;
    DeeperEndsFirst(starts, i, j, n);
    TrimAt(lines, starts[i].line, BlockEnd(starts, i, i + 1, n));
    TrimAt(lines, starts[j].line, BlockEnd(starts, j, j + 1, n));
    SpanEndsInText(lines, rec, j);
  }

  /** A header's block ends no later than that of a shallower header before it, if
      all in between are deeper than that one. */
  lemma DeeperEndsFirst(starts: seq<Start>, i: nat, j: nat, n: nat)
    requires i < j < |starts|
    requires forall x :: 0 <= x < |starts| ==> starts[x].line <= n
    requires forall x, y :: 0 <= x < y < |starts| ==> starts[x].line < starts[y].line
    requires forall k :: i < k <= j ==> starts[k].header.indent > starts[i].header.indent
    ensures starts[j].line <= BlockEnd(starts, j, j + 1, n) <= BlockEnd(starts, i, i + 1, n) <= n
  {
    var mi := BlockEndAt(starts, i, i + 1, n);
    var mj := BlockEndAt(starts, j, j + 1, n);
    assert mj <= mi;
  }

  lemma ShallowHeaderParts(lines: seq<string>, rec: Recognizer, i: nat, k: nat, j: nat)
    requires i < k <= j < |PythonSpans(lines, rec)|
    requires Starts(lines, rec)[k].header.indent <= Starts(lines, rec)[i].header.indent
    ensures PythonSpans(lines, rec)[i].end < PythonSpans(lines, rec)[j].start
  {
    var starts := Starts(lines, rec);
    StartsAt(lines, rec);
    var n := |lines|;
    var mi := BlockEndAt(starts, i, i + 1, n);
    assert mi <= k;
    assert starts[mi].line <= starts[j].line;
    TrimAt(lines, starts[i].line, BlockEnd(starts, i, i + 1, n));
  }

  /** The spans of a file are laminar.  A later span is nested in an earlier one
      exactly when every header after the earlier, up to its own, has a greater
      indent than the earlier; otherwise the earlier ends before the later
      starts.  This holds although each span is trimmed of trailing blank lines
      on its own. */
  lemma PythonSpansAreLaminar(lines: seq<string>, rec: Recognizer, i: nat, j: nat)
    requires HeadersShow(rec) && i < j < |PythonSpans(lines, rec)|
    ensures
      var a, b := PythonSpans(lines, rec)[i], PythonSpans(lines, rec)[j];
      var starts := Starts(lines, rec);
      && (Inside(b, a) <==> forall k :: i < k <= j ==> starts[k].header.indent > starts[i].header.indent)
      && (!Inside(b, a) <==> a.end < b.start)
  {
    var starts := Starts(lines, rec);
    if k :| i < k <= j && starts[k].header.indent <= starts[i].header.indent {
      ShallowHeaderParts(lines, rec, i, k, j);
      SpanBounds(lines, rec, j);
    } else {
      DeeperHeadersNest(lines, rec, i, j);
      SpanBounds(lines, rec, j);
    }
  }
}
