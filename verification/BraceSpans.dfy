/** Symbol spans of brace languages: matching a block's braces, and the scan that
    collects the spans of types, methods and functions. */
module BraceSpans {
  import opened Common
  import opened Text
  import opened Sorting
  import opened Windows
  import opened PythonSpans

  // ----- matching braces -----

  function Delta(c: char): int {
    if c == '{' then 1 else if c == '}' then -1 else 0
  }

  /** Opening minus closing braces. */
  function Balance(s: string): int {
    if s == "" then 0 else Balance(s[..|s| - 1]) + Delta(s[|s| - 1])
  }

  /** The text ends in a closing brace that brings the balance back to zero. */
  predicate Closes(s: string) {
    s != "" && s[|s| - 1] == '}' && '{' in s && Balance(s) == 0
  }

  datatype ScanState = Found | Going(depth: int, started: bool)

  function ScanLine(s: string, depth: int, started: bool): ScanState {
    if s == "" then Going(depth, started)
    else if s[0] == '{' then ScanLine(s[1..], depth + 1, true)
    else if s[0] == '}' then
      if started && depth - 1 == 0 then Found else ScanLine(s[1..], depth - 1, started)
    else ScanLine(s[1..], depth, started)
  }

  /** The line, from `idx` on, where the scan finds its closing brace. */
  function MatchFrom(lines: seq<string>, idx: nat, depth: int, started: bool): Option<nat>
    decreases |lines| - idx
  {
    if idx >= |lines| then None
    else
      match ScanLine(lines[idx], depth, started)
      case Found => Some(idx)
      case Going(d, st) => MatchFrom(lines, idx + 1, d, st)
  }

  function MatchBlock(lines: seq<string>, braceLine: nat): Option<nat> {
    MatchFrom(lines, braceLine, 0, false)
  }

  function Concat(lines: seq<string>): string {
    if lines == [] then "" else Concat(lines[..|lines| - 1]) + lines[|lines| - 1]
  }

  lemma BalanceSnoc(p: string, c: char)
    ensures Balance(p + [c]) == Balance(p) + Delta(c)
    ensures '{' in p + [c] <==> '{' in p || c == '{'
    ensures Closes(p + [c]) <==> c == '}' && '{' in p && Balance(p) == 1
  {
    assert (p + [c])[..|p|] == p;
  }

  /** Some prefix of `s`, after the text `p`, closes the block. */
  ghost predicate PrefixCloses(p: string, s: string) {
    exists c :: 0 < c <= |s| && Closes(p + s[..c])
  }

  lemma PrefixClosesStep(p: string, s: string)
    requires s != ""
    ensures PrefixCloses(p, s) <==> Closes(p + [s[0]]) || PrefixCloses(p + [s[0]], s[1..])
  {
    var q := p + [s[0]];
    assert s[..1] == [s[0]];
    forall c | 1 <= c <= |s|
      ensures p + s[..c] == q + s[1..][..c - 1]
    {
    }
    if PrefixCloses(p, s) {
      var c :| 0 < c <= |s| && Closes(p + s[..c]);
      if c > 1 {
        assert Closes(q + s[1..][..c - 1]);
      }
    }
    if PrefixCloses(q, s[1..]) {
      var c :| 0 < c <= |s[1..]| && Closes(q + s[1..][..c]);
      assert p + s[..c + 1] == q + s[1..][..c];
    }
  }

  /** Scanning a line after the text `p` stops exactly when some prefix of the
      line closes the block; otherwise it has counted the whole text. */
  lemma {:induction false} ScanLineIs(p: string, s: string)
    ensures ScanLine(s, Balance(p), '{' in p).Found? <==> PrefixCloses(p, s)
    ensures !PrefixCloses(p, s) ==> ScanLine(s, Balance(p), '{' in p) == Going(Balance(p + s), '{' in p + s)
    decreases |s|
  {
    if s == "" {
      assert p + s == p;
    } else {
      var q := p + [s[0]];
      BalanceSnoc(p, s[0]);
      PrefixClosesStep(p, s);
      if !Closes(q) {
        ScanLineIs(q, s[1..]);
        assert q + s[1..] == p + s;
      }
    }
  }

  /** Some prefix of line `e` closes the block opened on line `b`. */
  ghost predicate ClosesAt(lines: seq<string>, b: nat, e: nat)
    requires b <= e < |lines|
  {
    PrefixCloses(Concat(lines[b..e]), lines[e])
  }

  lemma {:induction false} MatchFromIs(lines: seq<string>, b: nat, idx: nat)
    requires b <= idx <= |lines|
    requires forall x :: b <= x < idx ==> !ClosesAt(lines, b, x)
    ensures
      var r := MatchFrom(lines, idx, Balance(Concat(lines[b..idx])), '{' in Concat(lines[b..idx]));
      && (r.Some? ==> idx <= r.value < |lines| && ClosesAt(lines, b, r.value)
                      && forall x :: b <= x < r.value ==> !ClosesAt(lines, b, x))
      && (r.None? ==> forall x :: b <= x < |lines| ==> !ClosesAt(lines, b, x))
    decreases |lines| - idx
  {
    if idx < |lines| {
      var p := Concat(lines[b..idx]);
      ScanLineIs(p, lines[idx]);
      assert lines[b..idx + 1][..idx - b] == lines[b..idx];
      assert Concat(lines[b..idx + 1]) == p + lines[idx];
      if !ScanLine(lines[idx], Balance(p), '{' in p).Found? {
        assert !ClosesAt(lines, b, idx);
        MatchFromIs(lines, b, idx + 1);
      }
    }
  }

  /** The match is the first line on which a closing brace returns the running
      balance, counted from the block's first line, to zero; there is none
      exactly when no line does. */
  lemma MatchBlockIsFirstClose(lines: seq<string>, b: nat)
    requires b <= |lines|
    ensures MatchBlock(lines, b).Some? <==> exists e :: b <= e < |lines| && ClosesAt(lines, b, e)
    ensures MatchBlock(lines, b).Some? ==>
      var e := MatchBlock(lines, b).value;
      b <= e < |lines| && ClosesAt(lines, b, e) && forall x :: b <= x < e ==> !ClosesAt(lines, b, x)
  {
    assert lines[b..b] == [];
    MatchFromIs(lines, b, b);
  }

  /** One line of the character loop. */
  method ScanChars(s: string, depth0: int, started0: bool) returns (found: bool, depth: int, started: bool)
    ensures ScanLine(s, depth0, started0) == if found then Found else Going(depth, started)
  {
    depth, started := depth0, started0;
    for k := 0 to |s|
      invariant ScanLine(s, depth0, started0) == ScanLine(s[k..], depth, started)
    {
      assert s[k..][0] == s[k] && s[k..][1..] == s[k + 1..];
      if s[k] == '{' {
        depth := depth + 1;
        started := true;
      } else if s[k] == '}' {
        depth := depth - 1;
        if started && depth == 0 {
          return true, depth, started;
        }
      }
    }
    assert s[|s|..] == "";
    found := false;
  }

  /** The chunker's brace matcher. */
  method MatchBraceBlock(lines: seq<string>, braceLine: nat) returns (r: Option<nat>)
    ensures r == MatchBlock(lines, braceLine)
  {
    var depth, started, idx := 0, false, braceLine;
    while idx < |lines|
      invariant MatchBlock(lines, braceLine) == MatchFrom(lines, idx, depth, started)
    {
      var found, d, st := ScanChars(lines[idx], depth, started);
      if found {
        return Some(idx);
      }
      depth, started, idx := d, st, idx + 1;
    }
    r := None;
  }

  /** The slicer's own copy of the matcher: 1-based, and the last line of the
      file when nothing closes. */
  method JavaMethodEnd(lines: seq<string>, start: int) returns (end: nat)
    ensures
      var m := MatchBlock(lines, Max(0, start - 1));
      end == if m.Some? then m.value + 1 else |lines|
    ensures 1 <= start <= |lines| ==> start <= end <= |lines|
  {
    var depth, started, idx := 0, false, Max(0, start - 1);
    if idx <= |lines| {
      MatchBlockIsFirstClose(lines, idx);
    }
    while idx < |lines|
      invariant Max(0, start - 1) <= idx
      invariant MatchBlock(lines, Max(0, start - 1)) == MatchFrom(lines, idx, depth, started)
    {
      var found, d, st := ScanChars(lines[idx], depth, started);
      if found {
        return idx + 1;
      }
      depth, started, idx := d, st, idx + 1;
    }
    end := |lines|;
  }

  // ----- collecting spans -----

  /** What the header patterns find in a line. */
  datatype BraceHeader = BraceHeader(name: string, kind: SymbolKind)

  type BraceRecognizer = string -> Option<BraceHeader>

  function LastIs(s: string, c: char): bool {
    s != "" && s[|s| - 1] == c
  }

  /** The signature clearly ended without a body. */
  predicate EndsSignature(line: string) {
    var s := Strip(line);
    s != "" && !LastIs(s, ',') && !LastIs(s, '(') && (LastIs(s, ';') || s[0] == '@')
  }

  const LOOKAHEAD := 12

  function OpeningBraceFrom(lines: seq<string>, start: nat, idx: nat): Option<nat>
    decreases |lines| - idx
  {
    if idx >= |lines| || idx >= start + LOOKAHEAD then None
    else if '{' in lines[idx] then Some(idx)
    else if idx > start && EndsSignature(lines[idx]) then None
    else OpeningBraceFrom(lines, start, idx + 1)
  }

  function FindOpeningBrace(lines: seq<string>, start: nat): (r: Option<nat>) {
    OpeningBraceFrom(lines, start, start)
  }

  lemma {:induction false} OpeningBraceAt(lines: seq<string>, start: nat, idx: nat)
    requires start <= idx
    ensures OpeningBraceFrom(lines, start, idx).Some? ==>
      var b := OpeningBraceFrom(lines, start, idx).value;
      idx <= b < |lines| && b < start + LOOKAHEAD && '{' in lines[b]
    decreases |lines| - idx
  {
    if idx < |lines| && idx < start + LOOKAHEAD && '{' !in lines[idx] {
      OpeningBraceAt(lines, start, idx + 1);
    }
  }

  /** The last line of the block whose header is line i. */
  function BlockOf(lines: seq<string>, i: nat): (r: Option<nat>)
    requires i < |lines|
    ensures r.Some? ==> i <= r.value < |lines|
  {
    var b := FindOpeningBrace(lines, i);
    OpeningBraceAt(lines, i, i);
    if b.None? then None
    else
      MatchBlockIsFirstClose(lines, b.value);
      MatchBlock(lines, b.value)
  }

  /** The span whose header is line i, if there is a header and its block closes. */
  function SpanOf(lines: seq<string>, rec: BraceRecognizer, i: nat): (r: Option<SymbolSpan>)
    requires i < |lines|
    ensures r.Some? ==>
      && i + 1 == r.value.start <= r.value.end <= |lines|
      && rec(lines[i]) == Some(BraceHeader(r.value.name, r.value.kind))
      && BlockOf(lines, i) == Some(r.value.end - 1)
  {
    var h := rec(lines[i]);
    var end := BlockOf(lines, i);
    if h.None? || end.None? then None
    else Some(SymbolSpan(h.value.name, h.value.kind, i + 1, end.value + 1))
  }

  /** Where the scan goes on after a span: a class is entered, any other block is
      jumped over. */
  function After(s: SymbolSpan): nat {
    if s.kind == ClassSymbol then s.start else s.end
  }

  /** The spans whose headers stand on line i or later. */
  function SpansFrom(lines: seq<string>, rec: BraceRecognizer, i: nat): seq<SymbolSpan>
    decreases |lines| - i
  {
    if i >= |lines| then []
    else
      match SpanOf(lines, rec, i)
      case None => SpansFrom(lines, rec, i + 1)
      case Some(s) => [s] + SpansFrom(lines, rec, After(s))
  }

  method HeaderSpan(lines: seq<string>, rec: BraceRecognizer, i: nat) returns (r: Option<SymbolSpan>)
    requires i < |lines|
    ensures r == SpanOf(lines, rec, i)
  {
    var h := rec(lines[i]);
    if h.None? {
      return None;
    }
    var braceLine := FindOpeningBrace(lines, i);
    if braceLine.None? {
      return None;
    }
    var end := MatchBraceBlock(lines, braceLine.value);
    r := if end.None? then None else Some(SymbolSpan(h.value.name, h.value.kind, i + 1, end.value + 1));
  }

  /** The scan of the source; Java, JavaScript and Go differ in their patterns. */
  method ExtractBraceSpans(lines: seq<string>, rec: BraceRecognizer) returns (spans: seq<SymbolSpan>)
    ensures spans == SpansFrom(lines, rec, 0)
  {
    var found: seq<SymbolSpan> := [];
    var i: nat := 0;
    while i < |lines|
      invariant SpansFrom(lines, rec, 0) == found + SpansFrom(lines, rec, i)
      decreases |lines| - i
    {
      var span := HeaderSpan(lines, rec, i);
      if span.None? {
        i := i + 1;
      } else {
        assert found + SpansFrom(lines, rec, i) == found + [span.value] + SpansFrom(lines, rec, After(span.value));
        found := found + [span.value];
        i := After(span.value);
      }
    }
    assert found == SpansFrom(lines, rec, 0);
    ExtractedInOrder(lines, rec, 0);
    InOrderIncreases(lines, rec, 0, found);
    spans := DedupeSpans(found);
    DedupeKeepsIncreasing(found);
  }

  /** The span is the block of its header, which stands behind line i. */
  ghost predicate PlacedBehind(lines: seq<string>, rec: BraceRecognizer, i: int, s: SymbolSpan) {
    && 0 <= i < s.start <= s.end <= |lines|
    && rec(lines[s.start - 1]) == Some(BraceHeader(s.name, s.kind))
    && BlockOf(lines, s.start - 1) == Some(s.end - 1)
  }

  /** `t` starts after `s` and, if that is no class, beyond its end. */
  predicate Ahead(s: SymbolSpan, t: SymbolSpan) {
    s.start < t.start && (s.kind != ClassSymbol ==> s.end < t.start)
  }

  ghost predicate InOrder(lines: seq<string>, rec: BraceRecognizer, i: int, spans: seq<SymbolSpan>) {
    && (forall a :: 0 <= a < |spans| ==> PlacedBehind(lines, rec, i, spans[a]))
    && forall a, b :: 0 <= a < b < |spans| ==> Ahead(spans[a], spans[b])
  }

  lemma InOrderCons(lines: seq<string>, rec: BraceRecognizer, i: int, s: SymbolSpan, rest: seq<SymbolSpan>)
    requires PlacedBehind(lines, rec, i, s) && InOrder(lines, rec, After(s), rest)
    ensures InOrder(lines, rec, i, [s] + rest)
  {
    var all := [s] + rest;
    forall a | 0 <= a < |all|
      ensures PlacedBehind(lines, rec, i, all[a])
    {
      assert a > 0 ==> PlacedBehind(lines, rec, After(s), rest[a - 1]);
    }
    forall a, b | 0 <= a < b < |all|
      ensures Ahead(all[a], all[b])
    {
      assert PlacedBehind(lines, rec, After(s), rest[b - 1]);
      assert a > 0 ==> Ahead(rest[a - 1], rest[b - 1]);
    }
  }

  lemma InOrderEarlier(lines: seq<string>, rec: BraceRecognizer, i: nat, spans: seq<SymbolSpan>)
    requires InOrder(lines, rec, i + 1, spans)
    ensures InOrder(lines, rec, i, spans)
  {
    forall a | 0 <= a < |spans|
      ensures PlacedBehind(lines, rec, i, spans[a])
    {
      assert PlacedBehind(lines, rec, i + 1, spans[a]);
    }
  }

  /** Every span is its header's block, and after a method or function every
      later span starts beyond its end. */
  lemma {:induction false} ExtractedInOrder(lines: seq<string>, rec: BraceRecognizer, i: nat)
    ensures InOrder(lines, rec, i, SpansFrom(lines, rec, i))
    decreases |lines| - i
  {
    if i < |lines| {
      match SpanOf(lines, rec, i)
      case None =>
        ExtractedInOrder(lines, rec, i + 1);
        InOrderEarlier(lines, rec, i, SpansFrom(lines, rec, i + 1));
      case Some(s) =>
        ExtractedInOrder(lines, rec, After(s));
        InOrderCons(lines, rec, i, s, SpansFrom(lines, rec, After(s)));
    }
  }

  lemma InOrderIncreases(lines: seq<string>, rec: BraceRecognizer, i: int, spans: seq<SymbolSpan>)
    requires InOrder(lines, rec, i, spans)
    ensures forall a, b :: 0 <= a < b < |spans| ==> spans[a].start < spans[b].start
  {
    forall a, b | 0 <= a < b < |spans|
      ensures spans[a].start < spans[b].start
    {
      assert Ahead(spans[a], spans[b]);
    }
  }

  /** Every header with a block gives its span, unless it stands inside the block
      of a method or function that does. */
  lemma {:induction false} EveryHeaderIsSpanned(lines: seq<string>, rec: BraceRecognizer, i: nat, x: nat)
    requires i <= x < |lines| && SpanOf(lines, rec, x).Some?
    ensures
      || SpanOf(lines, rec, x).value in SpansFrom(lines, rec, i)
      || exists t :: t in SpansFrom(lines, rec, i) && t.kind != ClassSymbol && t.start <= x + 1 <= t.end
    decreases |lines| - i
  {
    var s := SpanOf(lines, rec, i);
    if s.None? {
      EveryHeaderIsSpanned(lines, rec, i + 1, x);
    } else if x != i {
      var spans := SpansFrom(lines, rec, i);
      assert s.value in spans;
      assert forall t :: t in SpansFrom(lines, rec, After(s.value)) ==> t in spans;
      if After(s.value) <= x {
        EveryHeaderIsSpanned(lines, rec, After(s.value), x);
      }
    }
  }

  // ----- removing duplicates -----

  predicate ByTightness(a: SymbolSpan, b: SymbolSpan) {
    a.start < b.start || (a.start == b.start &&
      (a.end - a.start > b.end - b.start || (a.end - a.start == b.end - b.start && LexLeq(a.name, b.name))))
  }

  predicate ByRange(a: SymbolSpan, b: SymbolSpan) {
    a.start < b.start || (a.start == b.start && (a.end < b.end || (a.end == b.end && LexLeq(a.name, b.name))))
  }

  predicate SameSymbol(a: SymbolSpan, b: SymbolSpan) {
    a.start == b.start && a.end == b.end && a.name == b.name
  }

  function KeepFirst(s: seq<SymbolSpan>): seq<SymbolSpan> {
    if s == [] then []
    else
      var kept := KeepFirst(s[..|s| - 1]);
      if exists k :: k in kept && SameSymbol(k, s[|s| - 1]) then kept else kept + [s[|s| - 1]]
  }

  method DedupeSpans(spans: seq<SymbolSpan>) returns (r: seq<SymbolSpan>)
    ensures r == Sort(KeepFirst(Sort(spans, ByTightness)), ByRange)
  {
    if spans == [] {
      return [];
    }
    var ordered := Sort(spans, ByTightness);
    var kept: seq<SymbolSpan> := [];
    for i := 0 to |ordered|
      invariant kept == KeepFirst(ordered[..i])
    {
      assert ordered[..i + 1][..i] == ordered[..i];
      var duplicate := false;
      var k := 0;
      while k < |kept| && !duplicate
        invariant 0 <= k <= |kept|
        invariant duplicate <==> exists x :: 0 <= x < k && SameSymbol(kept[x], ordered[i])
      {
        duplicate := SameSymbol(kept[k], ordered[i]);
        k := k + 1;
      }
      assert duplicate <==> exists x :: x in kept && SameSymbol(x, ordered[i]) by {
        if x :| x in kept && SameSymbol(x, ordered[i]) {
          var j :| 0 <= j < |kept| && kept[j] == x;
        }
      }
      if !duplicate {
        kept := kept + [ordered[i]];
      }
    }
    assert ordered[..|ordered|] == ordered;
    r := Sort(kept, ByRange);
  }

  lemma {:induction false} KeepFirstOfIncreasing(s: seq<SymbolSpan>)
    requires forall a, b :: 0 <= a < b < |s| ==> s[a].start < s[b].start
    ensures KeepFirst(s) == s
  {
    if s != [] {
      KeepFirstOfIncreasing(s[..|s| - 1]);
      assert s == s[..|s| - 1] + [s[|s| - 1]];
    }
  }

  /** On spans with increasing starts, such as the scan produces, removing
      duplicates changes nothing. */
  lemma DedupeKeepsIncreasing(s: seq<SymbolSpan>)
    requires forall a, b :: 0 <= a < b < |s| ==> s[a].start < s[b].start
    ensures Sort(KeepFirst(Sort(s, ByTightness)), ByRange) == s
  {
    SortKeepsSorted(s, ByTightness);
    KeepFirstOfIncreasing(s);
    SortKeepsSorted(s, ByRange);
  }
}
