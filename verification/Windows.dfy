/** Overlapping line windows: how a long stretch of a file is cut into chunks. */
module Windows {
  import opened Common
  import opened Text

  datatype ChunkConfig = ChunkConfig(maxLines: int, overlapLines: int, minChars: int)

  /** A chunk of a file: an inclusive 1-based line range and its text. */
  datatype Chunk = Chunk(start: int, end: int, content: string, symbol: Option<string>)

  function Max(a: int, b: int): int {
    if a < b then b else a
  }

  function Min(a: int, b: int): int {
    if a < b then a else b
  }

  function MaxLines(cfg: ChunkConfig): int {
    Max(1, cfg.maxLines)
  }

  function Overlap(cfg: ChunkConfig): int {
    Max(0, Min(cfg.overlapLines, MaxLines(cfg) - 1))
  }

  function StepSize(cfg: ChunkConfig): int {
    Max(1, MaxLines(cfg) - Overlap(cfg))
  }

  /** A window of a segment: offsets lo (inclusive) to hi (exclusive). */
  datatype Window = Window(lo: nat, hi: nat)

  /** The windows of a segment of `len` lines, from `offset` on. */
  function WindowsFrom(len: nat, offset: nat, cfg: ChunkConfig): seq<Window>
    decreases len - offset
  {
    if offset >= len then []
    else
      var w := Window(offset, Min(len, offset + MaxLines(cfg)));
      if w.hi >= len then [w] else [w] + WindowsFrom(len, offset + StepSize(cfg), cfg)
  }

  /** Rounds up, for a positive divisor. */
  function CeilDiv(a: nat, b: int): nat
    requires b > 0
  {
    (a + b - 1) / b
  }

  lemma QuotientIs(x: int, b: int, q: int)
    requires b > 0 && b * q <= x < b * q + b
    ensures x / b == q
  {
    var d := x / b;
    assert b * d <= x < b * d + b;
    if d > q {
      TimesAtLeast(b, d - q);
    }
    if d < q {
      TimesAtLeast(b, q - d);
    }
  }

  lemma TimesAtLeast(b: int, k: int)
    requires b > 0 && k >= 1
    ensures b * k >= b
  {
  }

  lemma CeilDivStep(a: nat, b: int)
    requires b > 0 && a > 0
    ensures CeilDiv(a, b) == 1 + CeilDiv(if a < b then 0 else a - b, b)
  {
    if a < b {
      QuotientIs(a + b - 1, b, 1);
      QuotientIs(b - 1, b, 0);
    } else {
      var q := (a - 1) / b;
      assert b * q <= a - 1 < b * q + b;
      QuotientIs(a + b - 1, b, q + 1);
    }
  }

  /** How many windows there are, for every configuration. */
  lemma {:induction false} WindowCount(len: nat, offset: nat, cfg: ChunkConfig)
    requires offset < len
    ensures StepSize(cfg) == MaxLines(cfg) - Overlap(cfg)
    ensures |WindowsFrom(len, offset, cfg)| ==
      1 + CeilDiv(Max(0, len - offset - MaxLines(cfg)), StepSize(cfg))
    decreases len - offset
  {
    var m, s := MaxLines(cfg), StepSize(cfg);
    var excess := len - offset - m;
    if excess > 0 {
      WindowCount(len, offset + s, cfg);
      CeilDivStep(excess, s);
    } else {
      assert CeilDiv(0, s) == 0;
    }
  }

  /** Where the windows lie: each but the last is full and shares exactly
      `Overlap` lines with the next, and the last ends with the segment. */
  lemma {:induction false} WindowShape(len: nat, offset: nat, cfg: ChunkConfig, i: nat)
    requires i < |WindowsFrom(len, offset, cfg)|
    ensures
      var ws := WindowsFrom(len, offset, cfg);
      && ws[0].lo == offset
      && ws[i].lo < ws[i].hi <= len
      && ws[i].hi - ws[i].lo <= MaxLines(cfg)
      && (i + 1 < |ws| ==> ws[i].hi - ws[i].lo == MaxLines(cfg) && ws[i].hi - ws[i + 1].lo == Overlap(cfg))
      && (i + 1 < |ws| ==> ws[i].lo < ws[i + 1].lo && ws[i].hi < ws[i + 1].hi)
      && (i + 1 == |ws| ==> ws[i].hi == len)
    decreases i
  {
    var ws := WindowsFrom(len, offset, cfg);
    if ws[0].hi < len {
      var rest := WindowsFrom(len, offset + StepSize(cfg), cfg);
      assert ws == [ws[0]] + rest && rest != [];
      if i > 0 {
        WindowShape(len, offset + StepSize(cfg), cfg, i - 1);
      } else {
        assert rest[0].lo == offset + StepSize(cfg) && rest[0].hi > ws[0].hi;
      }
    }
  }

  /** The union of the windows is the whole segment. */
  lemma {:induction false} WindowsCover(len: nat, offset: nat, cfg: ChunkConfig, x: nat) returns (i: nat)
    requires offset <= x < len
    ensures i < |WindowsFrom(len, offset, cfg)|
    ensures WindowsFrom(len, offset, cfg)[i].lo <= x < WindowsFrom(len, offset, cfg)[i].hi
    decreases len - offset
  {
    var ws := WindowsFrom(len, offset, cfg);
    if x < ws[0].hi {
      i := 0;
    } else {
      i := WindowsCover(len, offset + StepSize(cfg), cfg, x);
      assert ws == [ws[0]] + WindowsFrom(len, offset + StepSize(cfg), cfg);
      i := i + 1;
    }
  }

  // ----- the chunks of a line range -----

  function JoinLines(lines: seq<string>): string {
    if lines == [] then ""
    else if |lines| == 1 then lines[0]
    else lines[0] + "\n" + JoinLines(lines[1..])
  }

  /** The lines start..end of the file, cut off where the file ends. */
  function Segment(lines: seq<string>, start: int, end: int): seq<string>
    requires start >= 1
  {
    if end < start || start > |lines| then [] else lines[start - 1..Min(end, |lines|)]
  }

  function Content(segment: seq<string>, w: Window): string
    requires w.lo <= w.hi <= |segment|
  {
    Strip(JoinLines(segment[w.lo..w.hi]))
  }

  /** The chunks the windows `ws` give: those whose text is long enough. */
  function Emit(segment: seq<string>, start: int, ws: seq<Window>, symbol: Option<string>, cfg: ChunkConfig): seq<Chunk>
    requires forall w :: w in ws ==> w.lo <= w.hi <= |segment|
  {
    if ws == [] then []
    else
      ChunkAt(segment, start, ws[0], symbol, cfg) + Emit(segment, start, ws[1..], symbol, cfg)
  }

  lemma WindowsFit(len: nat, offset: nat, cfg: ChunkConfig)
    ensures forall w :: w in WindowsFrom(len, offset, cfg) ==> w.lo < w.hi <= len && w.hi - w.lo <= MaxLines(cfg)
  {
    var ws := WindowsFrom(len, offset, cfg);
    forall w | w in ws
      ensures w.lo < w.hi <= len && w.hi - w.lo <= MaxLines(cfg)
    {
      var i :| 0 <= i < |ws| && ws[i] == w;
      WindowShape(len, offset, cfg, i);
    }
  }

  function RangeChunks(lines: seq<string>, start: int, end: int, symbol: Option<string>, cfg: ChunkConfig): seq<Chunk>
    requires start >= 1
  {
    var segment := Segment(lines, start, end);
    ChunksFrom(segment, start, 0, symbol, cfg)
  }

  function ChunkAt(segment: seq<string>, start: int, w: Window, symbol: Option<string>, cfg: ChunkConfig): seq<Chunk>
    requires w.lo <= w.hi <= |segment|
  {
    var text := Content(segment, w);
    if |text| >= cfg.minChars then [Chunk(start + w.lo, start + w.hi - 1, text, symbol)] else []
  }

  /** The chunks from an offset on. */
  function ChunksFrom(segment: seq<string>, start: int, offset: nat, symbol: Option<string>, cfg: ChunkConfig)
    : seq<Chunk>
  {
    WindowsFit(|segment|, offset, cfg);
    Emit(segment, start, WindowsFrom(|segment|, offset, cfg), symbol, cfg)
  }

  lemma ChunksFromStep(segment: seq<string>, start: int, offset: nat, symbol: Option<string>, cfg: ChunkConfig)
    requires offset < |segment|
    ensures
      var hi := Min(|segment|, offset + MaxLines(cfg));
      ChunksFrom(segment, start, offset, symbol, cfg) ==
        ChunkAt(segment, start, Window(offset, hi), symbol, cfg)
        + (if hi >= |segment| then [] else ChunksFrom(segment, start, offset + StepSize(cfg), symbol, cfg))
  {
    var ws := WindowsFrom(|segment|, offset, cfg);
    WindowsFit(|segment|, offset, cfg);
    if ws[0].hi < |segment| {
      assert ws[1..] == WindowsFrom(|segment|, offset + StepSize(cfg), cfg);
    } else {
      assert ws[1..] == [];
      assert ws[0] == Window(offset, Min(|segment|, offset + MaxLines(cfg)));
      assert Emit(segment, start, ws[1..], symbol, cfg) == [];
    }
  }

  /** The window at an offset is emitted, and `rest` is left. */
  lemma EmitWindow(segment: seq<string>, start: int, offset: nat, symbol: Option<string>, cfg: ChunkConfig,
                   all: seq<Chunk>, chunks: seq<Chunk>, todo: seq<Chunk>, piece: seq<Chunk>, rest: seq<Chunk>)
    requires offset < |segment| && all == chunks + todo
    requires todo == ChunksFrom(segment, start, offset, symbol, cfg)
    requires piece == ChunkAt(segment, start, Window(offset, Min(|segment|, offset + MaxLines(cfg))), symbol, cfg)
    requires rest == if offset + MaxLines(cfg) >= |segment| then []
                     else ChunksFrom(segment, start, offset + StepSize(cfg), symbol, cfg)
    ensures all == (chunks + piece) + rest
  {
    ChunksFromStep(segment, start, offset, symbol, cfg);
    Regroup(chunks, piece, rest);
  }

  lemma SliceOfSlice(s: seq<string>, a: nat, b: nat, lo: nat, hi: nat)
    requires a <= b <= |s| && lo <= hi <= b - a
    ensures s[a..b][lo..hi] == s[a + lo..a + hi]
  {
    var x, y := s[a..b][lo..hi], s[a + lo..a + hi];
    assert forall k :: 0 <= k < hi - lo ==> x[k] == s[a + lo + k] == y[k];
    assert x == y;
  }

  /** The loop of the source; it ends for every configuration, zero and negative
      values included. */
  method WindowRange(lines: seq<string>, start: int, end: int, symbol: Option<string>, cfg: ChunkConfig)
      returns (chunks: seq<Chunk>)
    requires start >= 1
    ensures chunks == RangeChunks(lines, start, end, symbol, cfg)
  {
    var segment := Segment(lines, start, end);
    ghost var all := RangeChunks(lines, start, end, symbol, cfg);
    ghost var todo := all;
    chunks := [];
    var offset: nat := 0;
    while offset < |segment|
      invariant todo == ChunksFrom(segment, start, offset, symbol, cfg)
      invariant all == chunks + todo
      decreases |segment| - offset
    {
      var pieceEnd := Min(|segment|, offset + MaxLines(cfg));
      var piece := WindowChunk(segment, start, offset, pieceEnd, symbol, cfg);
      ghost var rest :=
        if offset + MaxLines(cfg) >= |segment| then []
        else ChunksFrom(segment, start, offset + StepSize(cfg), symbol, cfg);
      EmitWindow(segment, start, offset, symbol, cfg, all, chunks, todo, piece, rest);
      todo := rest;
      chunks := chunks + piece;
      if pieceEnd >= |segment| {
        return;
      }
      offset := offset + StepSize(cfg);
    }
  }

  /** The chunk of one window, if its text is long enough. */
  method WindowChunk(segment: seq<string>, start: int, offset: nat, pieceEnd: nat, symbol: Option<string>,
                     cfg: ChunkConfig)
      returns (piece: seq<Chunk>)
    requires offset <= pieceEnd <= |segment|
    ensures piece == ChunkAt(segment, start, Window(offset, pieceEnd), symbol, cfg)
  {
    var content := Strip(JoinLines(segment[offset..pieceEnd]));
    piece := if |content| >= cfg.minChars then [Chunk(start + offset, start + pieceEnd - 1, content, symbol)] else [];
  }
}
