/** Cutting a file into chunks: one run of windows per symbol span, one per
    stretch of lines that no span covers. */
module Chunker {
  import opened Common
  import opened Text
  import opened Sorting
  import opened Windows
  import opened PythonSpans
  import opened BraceSpans

  /** The spans lie in a file of n lines. */
  predicate WellPlaced(spans: seq<SymbolSpan>, n: nat) {
    forall i :: 0 <= i < |spans| ==> 1 <= spans[i].start <= spans[i].end <= n
  }

  datatype Language = Java | Python | JavaScript | Go | OtherLanguage

  method ExtractSymbolSpans(lines: seq<string>, language: Language, python: Recognizer, java: BraceRecognizer,
                            javaScript: BraceRecognizer, go: BraceRecognizer) returns (spans: seq<SymbolSpan>)
    ensures spans ==
      match language
      case Java => SpansFrom(lines, java, 0)
      case Python => PythonSpans.PythonSpans(lines, python)
      case JavaScript => SpansFrom(lines, javaScript, 0)
      case Go => SpansFrom(lines, go, 0)
      case OtherLanguage => []
    ensures WellPlaced(spans, |lines|)
  {
    match language {
      case Python =>
        spans := ExtractPythonSpans(lines, python);
        forall i | 0 <= i < |spans|
          ensures 1 <= spans[i].start <= spans[i].end <= |lines|
        {
          SpanBounds(lines, python, i);
        }
      case OtherLanguage =>
        spans := [];
      case _ =>
        var rec := if language.Java? then java else if language.JavaScript? then javaScript else go;
        spans := ExtractBraceSpans(lines, rec);
        ExtractedInOrder(lines, rec, 0);
    }
  }

  predicate Covers(s: SymbolSpan, x: int) {
    s.start <= x <= s.end
  }

  predicate Covered(spans: seq<SymbolSpan>, x: int) {
    exists i :: 0 <= i < |spans| && Covers(spans[i], x)
  }

  /** The chunks of the spans, span by span. */
  function SpanChunks(lines: seq<string>, spans: seq<SymbolSpan>, cfg: ChunkConfig): seq<Chunk>
    requires WellPlaced(spans, |lines|)
  {
    if spans == [] then []
    else
      RangeChunks(lines, spans[0].start, spans[0].end, Some(spans[0].name), cfg)
      + SpanChunks(lines, spans[1..], cfg)
  }

  datatype Gap = Gap(lo: nat, hi: nat)

  /** Which lines are covered; index 0 stands for no line. */
  function CoveredLines(spans: seq<SymbolSpan>, n: nat): seq<bool> {
    seq(n + 1, x => Covered(spans, x))
  }

  /** The gaps the line loop closes from `line` on; `open` is where the gap it is
      in began, 0 if it is in none. */
  function GapsFrom(cov: seq<bool>, line: nat, open: nat): seq<Gap>
    requires 0 < line <= |cov|
    decreases |cov| - line
  {
    if line == |cov| then (if open > 0 then [Gap(open, line - 1)] else [])
    else if !cov[line] then GapsFrom(cov, line + 1, if open > 0 then open else line)
    else if open > 0 then [Gap(open, line - 1)] + GapsFrom(cov, line + 1, 0)
    else GapsFrom(cov, line + 1, 0)
  }

  function Gaps(spans: seq<SymbolSpan>, n: nat): seq<Gap> {
    GapsFrom(CoveredLines(spans, n), 1, 0)
  }

  /** A stretch of uncovered lines that cannot be extended. */
  ghost predicate MaximalIn(cov: seq<bool>, g: Gap) {
    && 1 <= g.lo <= g.hi < |cov|
    && (forall x :: g.lo <= x <= g.hi ==> !cov[x])
    && (g.lo == 1 || cov[g.lo - 1])
    && (g.hi + 1 == |cov| || cov[g.hi + 1])
  }

  /** The loop is in the run that began at `open`, or in none. */
  ghost predicate InRun(cov: seq<bool>, line: nat, open: nat) {
    && 0 < line <= |cov|
    && if open == 0 then line == 1 || cov[line - 1]
       else open < line && (forall x :: open <= x < line ==> !cov[x]) && (open == 1 || cov[open - 1])
  }

  lemma {:induction false} GapsAreRuns(cov: seq<bool>, line: nat, open: nat)
    requires InRun(cov, line, open)
    ensures forall i :: 0 <= i < |GapsFrom(cov, line, open)| ==> MaximalIn(cov, GapsFrom(cov, line, open)[i])
    decreases |cov| - line
  {
    if line < |cov| {
      GapsAreRuns(cov, line + 1, if cov[line] then 0 else if open > 0 then open else line);
    }
  }

  lemma {:induction false} GapHolds(cov: seq<bool>, line: nat, open: nat, x: nat) returns (i: nat)
    requires InRun(cov, line, open) && (if open > 0 then open else line) <= x < |cov| && !cov[x]
    ensures i < |GapsFrom(cov, line, open)|
    ensures GapsFrom(cov, line, open)[i].lo <= x <= GapsFrom(cov, line, open)[i].hi
    decreases |cov| - line
  {
    if line == |cov| || (cov[line] && open > 0 && x < line) {
      i := 0;
    } else {
      i := GapHolds(cov, line + 1, if cov[line] then 0 else if open > 0 then open else line, x);
      i := i + if cov[line] && open > 0 then 1 else 0;
    }
  }

  /** A stretch of lines no span covers, which cannot be extended. */
  ghost predicate MaximalRun(spans: seq<SymbolSpan>, n: nat, g: Gap) {
    && 1 <= g.lo <= g.hi <= n
    && (forall x :: g.lo <= x <= g.hi ==> !Covered(spans, x))
    && (g.lo == 1 || Covered(spans, g.lo - 1))
    && (g.hi == n || Covered(spans, g.hi + 1))
  }

  lemma GapsStart(spans: seq<SymbolSpan>, n: nat)
    ensures forall i :: 0 <= i < |Gaps(spans, n)| ==> MaximalRun(spans, n, Gaps(spans, n)[i])
  {
    var cov := CoveredLines(spans, n);
    GapsAreRuns(cov, 1, 0);
    forall i | 0 <= i < |Gaps(spans, n)|
      ensures MaximalRun(spans, n, Gaps(spans, n)[i])
    {
      var g := Gaps(spans, n)[i];
      assert MaximalIn(cov, g);
      forall x | g.lo <= x <= g.hi
        ensures !Covered(spans, x)
      {
        assert !cov[x];
      }
    }
  }

  function GapChunks(lines: seq<string>, gaps: seq<Gap>, cfg: ChunkConfig): seq<Chunk>
    requires GapsPlaced(gaps)
  {
    if gaps == [] then []
    else
      RangeChunks(lines, gaps[0].lo, gaps[0].hi, None, cfg) + GapChunks(lines, gaps[1..], cfg)
  }

  predicate ByPosition(a: Chunk, b: Chunk) {
    a.start < b.start || (a.start == b.start &&
      (a.end < b.end || (a.end == b.end && LexLeq(Label(a), Label(b)))))
  }

  function Label(c: Chunk): string {
    match c.symbol
    case None => ""
    case Some(name) => name
  }

  /** All chunks of a file. */
  function FileChunks(lines: seq<string>, spans: seq<SymbolSpan>, cfg: ChunkConfig): seq<Chunk>
    requires WellPlaced(spans, |lines|)
  {
    GapsStart(spans, |lines|);
    if spans == [] then RangeChunks(lines, 1, |lines|, None, cfg)
    else Sort(SpanChunks(lines, spans, cfg) + GapChunks(lines, Gaps(spans, |lines|), cfg), ByPosition)
  }

  // ----- the source's loops -----

  method MarkSpan(covered: array<bool>, s: SymbolSpan)
    requires 1 <= s.start <= s.end < covered.Length
    modifies covered
    ensures forall x :: 0 <= x < covered.Length ==> covered[x] == (old(covered[x]) || Covers(s, x))
  {
    for line := s.start to s.end + 1
      invariant forall x :: 0 <= x < covered.Length ==>
        covered[x] == (old(covered[x]) || (s.start <= x < line))
    {
      covered[line] := true;
    }
  }

  lemma CoveredSnoc(spans: seq<SymbolSpan>, i: nat, x: int)
    requires i < |spans|
    ensures Covered(spans[..i + 1], x) <==> Covered(spans[..i], x) || Covers(spans[i], x)
  {
    var q, r := spans[..i], spans[..i + 1];
    if k :| 0 <= k < |q| && Covers(q[k], x) {
      assert r[k] == q[k];
    }
    if k :| 0 <= k < |r| && Covers(r[k], x) {
      assert k < i ==> q[k] == r[k];
    }
    assert r[i] == spans[i];
  }

  method ChunkSpans(lines: seq<string>, spans: seq<SymbolSpan>, cfg: ChunkConfig)
      returns (chunks: seq<Chunk>, covered: array<bool>)
    requires WellPlaced(spans, |lines|)
    ensures chunks == SpanChunks(lines, spans, cfg)
    ensures fresh(covered) && covered.Length == |lines| + 1
    ensures forall x :: 0 <= x <= |lines| ==> covered[x] == Covered(spans, x)
  {
    chunks := [];
    covered := new bool[|lines| + 1](_ => false);
    ghost var all, todo := SpanChunks(lines, spans, cfg), spans;
    for i := 0 to |spans|
      invariant todo == spans[i..] && SpansLeft(lines, all, chunks, todo, cfg)
      invariant covered.Length == |lines| + 1
      invariant forall x :: 0 <= x <= |lines| ==> covered[x] == Covered(spans[..i], x)
    {
      MarkSpan(covered, spans[i]);
      var more := WindowRange(lines, spans[i].start, spans[i].end, Some(spans[i].name), cfg);
      EmitSpan(lines, all, chunks, todo, cfg, more);
      chunks := chunks + more;
      todo := todo[1..];
      forall x | 0 <= x <= |lines|
        ensures covered[x] == Covered(spans[..i + 1], x)
      {
        CoveredSnoc(spans, i, x);
      }
    }
    assert spans[..|spans|] == spans;
  }

  /** All named chunks are those emitted so far and those of the spans still to come. */
  ghost predicate SpansLeft(lines: seq<string>, all: seq<Chunk>, chunks: seq<Chunk>, todo: seq<SymbolSpan>,
                            cfg: ChunkConfig) {
    WellPlaced(todo, |lines|) && all == chunks + SpanChunks(lines, todo, cfg)
  }

  lemma EmitSpan(lines: seq<string>, all: seq<Chunk>, chunks: seq<Chunk>, todo: seq<SymbolSpan>, cfg: ChunkConfig,
                 piece: seq<Chunk>)
    requires todo != [] && SpansLeft(lines, all, chunks, todo, cfg)
    requires piece == RangeChunks(lines, todo[0].start, todo[0].end, Some(todo[0].name), cfg)
    ensures SpansLeft(lines, all, chunks + piece, todo[1..], cfg)
  {
    SpanChunksCons(lines, todo, cfg, piece, todo[1..]);
    Regroup(chunks, piece, SpanChunks(lines, todo[1..], cfg));
  }

  ghost predicate StartsWith(todo: seq<Gap>, g: Gap, rest: seq<Gap>) {
    todo == [g] + rest
  }

  lemma GapCloses(cov: seq<bool>, line: nat, open: nat, todo: seq<Gap>, rest: seq<Gap>)
    requires 0 < line < |cov| && cov[line] && open > 0
    requires todo == GapsFrom(cov, line, open) && rest == GapsFrom(cov, line + 1, 0)
    ensures StartsWith(todo, Gap(open, line - 1), rest)
  {
  }

  lemma NoGapHere(cov: seq<bool>, line: nat)
    requires 0 < line < |cov| && cov[line]
    ensures GapsFrom(cov, line, 0) == GapsFrom(cov, line + 1, 0)
  {
  }

  lemma GapGoesOn(cov: seq<bool>, line: nat, open: nat)
    requires 0 < line < |cov| && !cov[line]
    ensures GapsFrom(cov, line, open) == GapsFrom(cov, line + 1, if open > 0 then open else line)
  {
  }

  /** All chunks are those emitted so far and those of the gaps still to come. */
  ghost predicate OnTheWay(lines: seq<string>, all: seq<Chunk>, chunks: seq<Chunk>, todo: seq<Gap>, cfg: ChunkConfig) {
    GapsPlaced(todo) && all == chunks + GapChunks(lines, todo, cfg)
  }

  /** Cuts one gap into chunks; `rest` are the gaps still to come. */
  method CutGap(lines: seq<string>, chunks: seq<Chunk>, lo: nat, hi: nat, ghost todo: seq<Gap>, ghost rest: seq<Gap>,
                cfg: ChunkConfig, ghost all: seq<Chunk>)
      returns (more: seq<Chunk>)
    requires lo >= 1 && StartsWith(todo, Gap(lo, hi), rest) && OnTheWay(lines, all, chunks, todo, cfg)
    ensures OnTheWay(lines, all, more, rest, cfg)
  {
    GapChunksCons(lines, Gap(lo, hi), rest, cfg);
    var piece := WindowRange(lines, lo, hi, None, cfg);
    Regroup(chunks, piece, GapChunks(lines, rest, cfg));
    more := chunks + piece;
  }

  /** A covered line ends the gap before it. */
  method CloseGap(lines: seq<string>, chunks: seq<Chunk>, ghost cov: seq<bool>, line: nat, open: nat,
                  ghost todo: seq<Gap>, ghost rest: seq<Gap>, cfg: ChunkConfig, ghost all: seq<Chunk>)
      returns (more: seq<Chunk>)
    requires 0 < open < line < |cov| && cov[line] && OnTheWay(lines, all, chunks, todo, cfg)
    requires todo == GapsFrom(cov, line, open) && rest == GapsFrom(cov, line + 1, 0)
    ensures OnTheWay(lines, all, more, rest, cfg)
  {
    GapCloses(cov, line, open, todo, rest);
    more := CutGap(lines, chunks, open, line - 1, todo, rest, cfg, all);
  }

  /** One line of the gap loop: a gap is cut into chunks where it ends. */
  method GapLine(lines: seq<string>, chunks: seq<Chunk>, isCovered: bool, ghost cov: seq<bool>, line: nat, open: nat,
                 cfg: ChunkConfig, ghost all: seq<Chunk>)
      returns (more: seq<Chunk>, gapStart: nat)
    requires open < line < |cov| && isCovered == cov[line]
    requires OnTheWay(lines, all, chunks, GapsFrom(cov, line, open), cfg)
    ensures gapStart <= line && OnTheWay(lines, all, more, GapsFrom(cov, line + 1, gapStart), cfg)
  {
    more, gapStart := chunks, open;
    if isCovered {
      if gapStart > 0 {
        ghost var todo, rest := GapsFrom(cov, line, open), GapsFrom(cov, line + 1, 0);
        more := CloseGap(lines, chunks, cov, line, open, todo, rest, cfg, all);
        gapStart := 0;
      } else {
        NoGapHere(cov, line);
      }
    } else {
      GapGoesOn(cov, line, open);
      if gapStart == 0 {
        gapStart := line;
      }
    }
  }

  method ChunkGaps(lines: seq<string>, covered: array<bool>, cfg: ChunkConfig) returns (chunks: seq<Chunk>)
    requires covered.Length == |lines| + 1 && GapsPlaced(GapsFrom(covered[..], 1, 0))
    ensures chunks == GapChunks(lines, GapsFrom(covered[..], 1, 0), cfg)
  {
    ghost var all := GapChunks(lines, GapsFrom(covered[..], 1, 0), cfg);
    assert [] + all == all;
    chunks := CutGaps(lines, covered, covered[..], cfg, all);
  }

  /** The loop over the lines. */
  method CutGaps(lines: seq<string>, covered: array<bool>, ghost cov: seq<bool>, cfg: ChunkConfig,
                 ghost all: seq<Chunk>)
      returns (chunks: seq<Chunk>)
    requires |cov| == |lines| + 1 && cov == covered[..] && OnTheWay(lines, all, [], GapsFrom(cov, 1, 0), cfg)
    ensures chunks == all
  {
    chunks := [];
    var gapStart: nat := 0;
    for line := 1 to |lines| + 1
      invariant gapStart < line && OnTheWay(lines, all, chunks, GapsFrom(cov, line, gapStart), cfg)
    {
      chunks, gapStart := GapLine(lines, chunks, covered[line], cov, line, gapStart, cfg, all);
    }
    chunks := LastGap(lines, chunks, cov, gapStart, cfg, all);
  }

  /** A gap still open after the last line reaches to the end. */
  method LastGap(lines: seq<string>, chunks: seq<Chunk>, ghost cov: seq<bool>, open: nat, cfg: ChunkConfig,
                 ghost all: seq<Chunk>)
      returns (more: seq<Chunk>)
    requires |cov| == |lines| + 1 && OnTheWay(lines, all, chunks, GapsFrom(cov, |cov|, open), cfg)
    ensures more == all
  {
    more := chunks;
    if open > 0 {
      assert [Gap(open, |lines|)] + [] == [Gap(open, |lines|)];
      more := CutGap(lines, chunks, open, |lines|, [Gap(open, |lines|)], [], cfg, all);
    }
  }

  predicate GapsPlaced(gaps: seq<Gap>) {
    forall i :: 0 <= i < |gaps| ==> gaps[i].lo >= 1
  }

  lemma GapChunksCons(lines: seq<string>, g: Gap, rest: seq<Gap>, cfg: ChunkConfig)
    requires g.lo >= 1 && GapsPlaced([g] + rest)
    ensures GapsPlaced(rest)
    ensures GapChunks(lines, [g] + rest, cfg) == RangeChunks(lines, g.lo, g.hi, None, cfg) + GapChunks(lines, rest, cfg)
  {
    var gs := [g] + rest;
    assert gs[1..] == rest;
    forall i | 0 <= i < |rest|
      ensures rest[i].lo >= 1
    {
      assert gs[i + 1] == rest[i];
    }
  }

  method ChunkCodeFile(lines: seq<string>, spans: seq<SymbolSpan>, cfg: ChunkConfig) returns (chunks: seq<Chunk>)
    requires WellPlaced(spans, |lines|)
    ensures chunks == FileChunks(lines, spans, cfg)
  {
    if lines == [] {
      return [];
    }
    if spans == [] {
      chunks := WindowRange(lines, 1, |lines|, None, cfg);
      return;
    }
    var named, covered := ChunkSpans(lines, spans, cfg);
    GapsStart(spans, |lines|);
    assert covered[..] == CoveredLines(spans, |lines|);
    var gaps := Gaps(spans, |lines|);
    forall i | 0 <= i < |gaps|
      ensures gaps[i].lo >= 1
    {
      assert MaximalRun(spans, |lines|, gaps[i]);
    }
    var anonymous := ChunkGaps(lines, covered, cfg);
    chunks := Sort(named + anonymous, ByPosition);
  }

  // ----- the chunks of one range -----

  lemma {:induction false} EmitAt(segment: seq<string>, start: int, ws: seq<Window>, symbol: Option<string>,
                                  cfg: ChunkConfig, c: Chunk)
      returns (w: Window)
    requires forall w :: w in ws ==> w.lo < w.hi <= |segment|
    requires c in Emit(segment, start, ws, symbol, cfg)
    ensures w in ws && c in ChunkAt(segment, start, w, symbol, cfg)
  {
    if c in ChunkAt(segment, start, ws[0], symbol, cfg) {
      w := ws[0];
    } else {
      w := EmitAt(segment, start, ws[1..], symbol, cfg, c);
    }
  }

  lemma {:induction false} EmitHas(segment: seq<string>, start: int, ws: seq<Window>, symbol: Option<string>,
                                   cfg: ChunkConfig, i: nat)
    requires forall w :: w in ws ==> w.lo < w.hi <= |segment|
    requires i < |ws|
    ensures ws[i] in ws
    ensures forall c :: c in ChunkAt(segment, start, ws[i], symbol, cfg) ==> c in Emit(segment, start, ws, symbol, cfg)
  {
    if i > 0 {
      EmitHas(segment, start, ws[1..], symbol, cfg, i - 1);
    }
  }

  /** Every chunk of a range lies in the range, carries its symbol, and has at
      most max(1, max_lines) lines. */
  lemma RangeChunkFits(lines: seq<string>, start: int, end: int, symbol: Option<string>, cfg: ChunkConfig, c: Chunk)
    requires 1 <= start <= end <= |lines| && c in RangeChunks(lines, start, end, symbol, cfg)
    ensures start <= c.start <= c.end <= end && c.symbol == symbol
    ensures c.end - c.start + 1 <= MaxLines(cfg)
    ensures c.content == Strip(JoinLines(lines[c.start - 1..c.end])) && |c.content| >= cfg.minChars
  {
    var segment := Segment(lines, start, end);
    WindowsFit(|segment|, 0, cfg);
    var w := EmitAt(segment, start, WindowsFrom(|segment|, 0, cfg), symbol, cfg, c);
    WindowText(lines, segment, start, end, w, c.start - 1, c.end);
  }

  /** The text of a window, cut from the file. */
  lemma WindowText(lines: seq<string>, segment: seq<string>, start: int, end: int, w: Window, lo: int, hi: int)
    requires 1 <= start <= end <= |lines| && segment == lines[start - 1..end] && w.lo <= w.hi <= |segment|
    requires lo == start - 1 + w.lo && hi == start - 1 + w.hi
    ensures 0 <= lo <= hi <= |lines| && Content(segment, w) == Strip(JoinLines(lines[lo..hi]))
  {
    SliceOfSlice(lines, start - 1, end, w.lo, w.hi);
  }

  lemma {:induction false} JoinShows(lines: seq<string>, i: nat)
    requires i < |lines| && !IsBlank(lines[i])
    ensures !IsBlank(JoinLines(lines))
  {
    var text := JoinLines(lines);
    if i == 0 {
      var k :| 0 <= k < |lines[0]| && !IsSpace(lines[0][k]);
      assert text[k] == lines[0][k];
    } else {
      JoinShows(lines[1..], i - 1);
      var rest := JoinLines(lines[1..]);
      var k :| 0 <= k < |rest| && !IsSpace(rest[k]);
      assert text[|lines[0]| + 1 + k] == rest[k];
    }
  }

  /** A non-blank line of a range is inside a chunk of the range. */
  lemma RangeChunksCover(lines: seq<string>, start: int, end: int, symbol: Option<string>, cfg: ChunkConfig, x: int)
      returns (c: Chunk)
    requires 1 <= start <= x <= end <= |lines| && !IsBlank(lines[x - 1]) && cfg.minChars <= 1
    ensures c in RangeChunks(lines, start, end, symbol, cfg) && c.start <= x <= c.end
  {
    var segment := Segment(lines, start, end);
    var ws := WindowsFrom(|segment|, 0, cfg);
    WindowsFit(|segment|, 0, cfg);
    var i := WindowsCover(|segment|, 0, cfg, x - start);
    var w := ws[i];
    EmitHas(segment, start, ws, symbol, cfg, i);
    var piece := segment[w.lo..w.hi];
    assert piece[x - start - w.lo] == lines[x - 1];
    JoinShows(piece, x - start - w.lo);
    StripEnds(JoinLines(piece));
    c := Chunk(start + w.lo, start + w.hi - 1, Strip(JoinLines(piece)), symbol);
    assert c in ChunkAt(segment, start, w, symbol, cfg);
  }

  // ----- the chunks of a file -----

  lemma {:induction false} SpanChunkFrom(lines: seq<string>, spans: seq<SymbolSpan>, cfg: ChunkConfig, c: Chunk)
      returns (i: nat)
    requires WellPlaced(spans, |lines|) && c in SpanChunks(lines, spans, cfg)
    ensures i < |spans| && c in RangeChunks(lines, spans[i].start, spans[i].end, Some(spans[i].name), cfg)
  {
    var s, rest := spans[0], spans[1..];
    if c in RangeChunks(lines, s.start, s.end, Some(s.name), cfg) {
      i := 0;
    } else {
      assert c in SpanChunks(lines, rest, cfg);
      var k := SpanChunkFrom(lines, rest, cfg, c);
      var t := rest[k];
      i := k + 1;
      assert spans[i] == t;
      assert c in RangeChunks(lines, t.start, t.end, Some(t.name), cfg);
    }
  }

  /** The chunks of one span are a stretch of the chunks of all. */
  lemma {:induction false} SpanChunksAround(lines: seq<string>, spans: seq<SymbolSpan>, cfg: ChunkConfig, i: nat,
                                            part: seq<Chunk>)
      returns (before: seq<Chunk>, after: seq<Chunk>)
    requires WellPlaced(spans, |lines|) && i < |spans|
    requires part == RangeChunks(lines, spans[i].start, spans[i].end, Some(spans[i].name), cfg)
    ensures SpanChunks(lines, spans, cfg) == before + part + after
  {
    var first := RangeChunks(lines, spans[0].start, spans[0].end, Some(spans[0].name), cfg);
    SpanChunksCons(lines, spans, cfg, first, spans[1..]);
    if i == 0 {
      before, after := [], SpanChunks(lines, spans[1..], cfg);
      NothingBefore(part, after);
    } else {
      InTail(spans, i);
      before, after := SpanChunksAround(lines, spans[1..], cfg, i - 1, part);
      RegroupFour(first, before, part, after);
      before := first + before;
    }
  }

  lemma NothingBefore(a: seq<Chunk>, b: seq<Chunk>)
    ensures [] + a + b == a + b
  {
  }

  lemma InTail(spans: seq<SymbolSpan>, i: nat)
    requires 0 < i < |spans|
    ensures spans[1..][i - 1] == spans[i]
  {
  }

  lemma SpanChunkIn(lines: seq<string>, spans: seq<SymbolSpan>, cfg: ChunkConfig, i: nat, c: Chunk)
    requires WellPlaced(spans, |lines|) && i < |spans|
    requires c in RangeChunks(lines, spans[i].start, spans[i].end, Some(spans[i].name), cfg)
    ensures c in SpanChunks(lines, spans, cfg)
  {
    var part := RangeChunks(lines, spans[i].start, spans[i].end, Some(spans[i].name), cfg);
    var before, after := SpanChunksAround(lines, spans, cfg, i, part);
    InMiddle(before, part, after, c);
  }

  lemma InMiddle(a: seq<Chunk>, b: seq<Chunk>, d: seq<Chunk>, c: Chunk)
    requires c in b
    ensures c in a + b + d
  {
  }

  lemma SpanChunksCons(lines: seq<string>, spans: seq<SymbolSpan>, cfg: ChunkConfig, first: seq<Chunk>,
                       rest: seq<SymbolSpan>)
    requires spans != [] && WellPlaced(spans, |lines|) && rest == spans[1..]
    requires first == RangeChunks(lines, spans[0].start, spans[0].end, Some(spans[0].name), cfg)
    ensures WellPlaced(rest, |lines|) && SpanChunks(lines, spans, cfg) == first + SpanChunks(lines, rest, cfg)
  {
  }

  lemma {:induction false} GapChunkFrom(lines: seq<string>, gaps: seq<Gap>, cfg: ChunkConfig, c: Chunk) returns (i: nat)
    requires GapsPlaced(gaps) && c in GapChunks(lines, gaps, cfg)
    ensures i < |gaps| && c in RangeChunks(lines, gaps[i].lo, gaps[i].hi, None, cfg)
  {
    var g, rest := gaps[0], gaps[1..];
    if c in RangeChunks(lines, g.lo, g.hi, None, cfg) {
      i := 0;
    } else {
      assert c in GapChunks(lines, rest, cfg);
      var k := GapChunkFrom(lines, rest, cfg, c);
      var h := rest[k];
      i := k + 1;
      assert gaps[i] == h;
      assert c in RangeChunks(lines, h.lo, h.hi, None, cfg);
    }
  }

  lemma {:induction false} GapChunkIn(lines: seq<string>, gaps: seq<Gap>, cfg: ChunkConfig, i: nat, c: Chunk)
    requires GapsPlaced(gaps) && i < |gaps| && c in RangeChunks(lines, gaps[i].lo, gaps[i].hi, None, cfg)
    ensures c in GapChunks(lines, gaps, cfg)
  {
    if i > 0 {
      GapChunkIn(lines, gaps[1..], cfg, i - 1, c);
    }
  }

  /** Where a chunk of a file comes from: a symbol span, or a maximal run of lines
      no span covers; an anonymous one shares no line with any span. */
  lemma ChunkOrigin(lines: seq<string>, spans: seq<SymbolSpan>, cfg: ChunkConfig, c: Chunk)
    requires WellPlaced(spans, |lines|) && spans != [] && c in FileChunks(lines, spans, cfg)
    ensures c.symbol.Some? ==>
      exists i :: (
        0 <= i < |spans| && c.symbol == Some(spans[i].name) && spans[i].start <= c.start <= c.end <= spans[i].end)
    ensures c.symbol.None? ==> exists g :: MaximalRun(spans, |lines|, g) && g.lo <= c.start <= c.end <= g.hi
    ensures c.symbol.None? ==> forall x :: c.start <= x <= c.end ==> !Covered(spans, x)
    ensures c.end - c.start + 1 <= MaxLines(cfg)
  {
    var gaps := Gaps(spans, |lines|);
    GapsStart(spans, |lines|);
    SortMembers(SpanChunks(lines, spans, cfg) + GapChunks(lines, gaps, cfg), ByPosition);
    if c in SpanChunks(lines, spans, cfg) {
      var i := SpanChunkFrom(lines, spans, cfg, c);
      RangeChunkFits(lines, spans[i].start, spans[i].end, Some(spans[i].name), cfg, c);
    } else {
      var i := GapChunkFrom(lines, gaps, cfg, c);
      assert MaximalRun(spans, |lines|, gaps[i]);
      RangeChunkFits(lines, gaps[i].lo, gaps[i].hi, None, cfg, c);
    }
  }

  /** With min_chars at most 1, every non-blank line of the file is inside some
      chunk: of each span that covers it, or of the gap it is in. */
  lemma EveryLineIsChunked(lines: seq<string>, spans: seq<SymbolSpan>, cfg: ChunkConfig, x: int) returns (c: Chunk)
    requires WellPlaced(spans, |lines|) && cfg.minChars <= 1
    requires 1 <= x <= |lines| && !IsBlank(lines[x - 1])
    ensures c in FileChunks(lines, spans, cfg) && c.start <= x <= c.end
    ensures c.symbol.None? <==> !Covered(spans, x)
  {
    if spans == [] {
      c := RangeChunksCover(lines, 1, |lines|, None, cfg, x);
      RangeChunkFits(lines, 1, |lines|, None, cfg, c);
    } else {
      var gaps := Gaps(spans, |lines|);
      GapsStart(spans, |lines|);
      SortMembers(SpanChunks(lines, spans, cfg) + GapChunks(lines, gaps, cfg), ByPosition);
      if i :| 0 <= i < |spans| && Covers(spans[i], x) {
        c := RangeChunksCover(lines, spans[i].start, spans[i].end, Some(spans[i].name), cfg, x);
        RangeChunkFits(lines, spans[i].start, spans[i].end, Some(spans[i].name), cfg, c);
        SpanChunkIn(lines, spans, cfg, i, c);
      } else {
        var i := GapHolds(CoveredLines(spans, |lines|), 1, 0, x);
        c := RangeChunksCover(lines, gaps[i].lo, gaps[i].hi, None, cfg, x);
        RangeChunkFits(lines, gaps[i].lo, gaps[i].hi, None, cfg, c);
        GapChunkIn(lines, gaps, cfg, i, c);
      }
    }
  }

  /** The chunks come in file order. */
  lemma ChunksAreOrdered(lines: seq<string>, spans: seq<SymbolSpan>, cfg: ChunkConfig, i: nat, j: nat)
    requires WellPlaced(spans, |lines|) && spans != [] && i < j < |FileChunks(lines, spans, cfg)|
    ensures ByPosition(FileChunks(lines, spans, cfg)[i], FileChunks(lines, spans, cfg)[j])
  {
    GapsStart(spans, |lines|);
    PositionIsPreorder();
    SortSorts(SpanChunks(lines, spans, cfg) + GapChunks(lines, Gaps(spans, |lines|), cfg), ByPosition);
  }

  lemma PositionIsPreorder()
    ensures TotalPreorder(ByPosition)
  {
    forall a, b
      ensures ByPosition(a, b) || ByPosition(b, a)
    {
      LexTotal(Label(a), Label(b));
    }
    forall a, b, c | ByPosition(a, b) && ByPosition(b, c)
      ensures ByPosition(a, c)
    {
      if LexLeq(Label(a), Label(b)) && LexLeq(Label(b), Label(c)) {
        LexTransitive(Label(a), Label(b), Label(c));
      }
    }
  }
}
