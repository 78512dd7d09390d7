/** The renderer on characters: two regular-expression substitutions, the first
    of which calls the renderer on the text inside a block. */
module TemplateRender {
  import opened Common
  import opened Text
  import opened TemplateTokens

  predicate WordChar(c: char) {
    'a' <= c <= 'z' || 'A' <= c <= 'Z' || '0' <= c <= '9' || c == '_'
  }

  /** The length of the longest run of word characters s starts with. */
  function WordRun(s: string): (n: nat)
    ensures n <= |s|
  {
    if s != "" && WordChar(s[0]) then 1 + WordRun(s[1..]) else 0
  }

  /** A name followed by two closing braces. */
  function NameAt(s: string): (r: Option<string>)
    ensures r.Some? ==> |r.value| + 2 <= |s| && r.value != ""
  {
    var n := WordRun(s);
    if 0 < n && n + 1 < |s| && s[n] == '}' && s[n + 1] == '}' then Some(s[..n]) else None
  }

  /** The name of the block opening that s starts with. */
  function OpenAt(s: string): (r: Option<string>)
    ensures r.Some? ==> |r.value| + 5 <= |s|
  {
    if |s| >= 3 && s[0] == '{' && s[1] == '{' && s[2] == '#' then NameAt(s[3..]) else None
  }

  function VarAt(s: string): (r: Option<string>)
    ensures r.Some? ==> |r.value| + 4 <= |s|
  {
    if |s| >= 2 && s[0] == '{' && s[1] == '{' then NameAt(s[2..]) else None
  }

  function OpenTag(n: string): string {
    ['{', '{', '#'] + n + ['}', '}']
  }

  function VarTag(n: string): string {
    ['{', '{'] + n + ['}', '}']
  }

  function CloseTag(n: string): string {
    ['{', '{', '/'] + n + ['}', '}']
  }

  /** Where `tag` first occurs in s, or -1. */
  function FindTag(s: string, tag: string): (k: int)
    ensures -1 <= k && (k >= 0 ==> k + |tag| <= |s|)
  {
    if tag <= s then 0
    else if s == "" then -1
    else
      var k := FindTag(s[1..], tag);
      if k < 0 then -1 else k + 1
  }

  /** The first substitution, left to right, without rescanning. */
  function SubstituteBlocks(s: string, ctx: Context): string
    decreases |s|, 0
  {
    if s == "" then ""
    else
      var open := OpenAt(s);
      var k := if open.Some? then FindTag(s[|open.value| + 5..], CloseTag(open.value)) else -1;
      if open.Some? && k >= 0 then
        var rest := s[|open.value| + 5..];
        (if IsOff(ctx, open.value) then "" else RenderMessageTemplate(rest[..k], ctx))
        + SubstituteBlocks(rest[k + |open.value| + 5..], ctx)
      else [s[0]] + SubstituteBlocks(s[1..], ctx)
  }

  function SubstituteVariables(s: string, ctx: Context): string
    decreases |s|
  {
    if s == "" then ""
    else
      var name := VarAt(s);
      if name.Some? then Value(ctx, name.value) + SubstituteVariables(s[|name.value| + 4..], ctx)
      else [s[0]] + SubstituteVariables(s[1..], ctx)
  }

  function RenderMessageTemplate(body: string, ctx: Context): string
    decreases |body|, 1
  {
    SubstituteVariables(SubstituteBlocks(body, ctx), ctx)
  }

  // ----- plain text and tags, character by character -----

  /** A name and its closing braces, or the beginning of that. */
  predicate NameBegins(s: string) {
    var n := WordRun(s);
    n == |s| || (n > 0 && s[n] == '}' && (n + 1 == |s| || s[n + 1] == '}'))
  }

  /** The text starts with a tag, or it is the beginning of one. */
  predicate TagBegins(s: string) {
    && s != "" && s[0] == '{'
    && (|s| == 1 || (s[1] == '{' && (|s| == 2 || NameBegins(if s[2] == '#' || s[2] == '/' then s[3..] else s[2..]))))
  }

  /** No tag begins anywhere in the text, whatever follows it. */
  predicate Inert(s: string) {
    forall k :: 0 <= k < |s| ==> !TagBegins(s[k..])
  }

  /** In particular when no opening brace is doubled and none stands at the end. */
  lemma UndoubledIsInert(s: string)
    requires forall i :: 0 <= i < |s| && s[i] == '{' ==> i + 1 < |s| && s[i + 1] != '{'
    ensures Inert(s)
  {
    forall k | 0 <= k < |s|
      ensures !TagBegins(s[k..])
    {
      assert s[k..][0] == s[k] && (|s[k..]| > 1 ==> s[k..][1] == s[k + 1]);
    }
  }

  lemma InertTail(t: string)
    requires Inert(t) && t != ""
    ensures Inert(t[1..]) && !TagBegins(t)
  {
    assert t[0..] == t;
    forall k | 0 <= k < |t[1..]|
      ensures !TagBegins(t[1..][k..])
    {
      assert t[1..][k..] == t[k + 1..];
    }
  }

  /** How far a run of word characters goes in a longer text. */
  lemma {:induction false} WordRunLonger(a: string, y: string)
    ensures WordRun(a) < |a| ==> WordRun(a + y) == WordRun(a)
    ensures WordRun(a) == |a| ==> WordRun(a + y) >= |a|
  {
    if a != "" && WordChar(a[0]) {
      WordRunLonger(a[1..], y);
      assert (a + y)[1..] == a[1..] + y;
    }
  }

  lemma NameStays(v: string, s: string)
    requires !NameBegins(v)
    ensures NameAt(v + s).None? && !NameBegins(v + s)
  {
    WordRunLonger(v, s);
    var n := WordRun(v);
    assert (v + s)[n] == v[n];
    assert n + 1 < |v| ==> (v + s)[n + 1] == v[n + 1];
  }

  /** Where no tag begins, none begins in a longer text either. */
  lemma TagStays(t: string, s: string)
    requires t != "" && !TagBegins(t)
    ensures OpenAt(t + s).None? && VarAt(t + s).None? && !TagBegins(t + s)
  {
    var u := t + s;
    assert u[0] == t[0];
    if t[0] == '{' && u[1] == '{' {
      assert u[1] == t[1] && u[2] == t[2];
      if t[2] == '#' || t[2] == '/' {
        assert u[3..] == t[3..] + s && u[2..][0] == t[2];
        NameStays(t[3..], s);
      } else {
        assert u[2..] == t[2..] + s;
        NameStays(t[2..], s);
      }
    }
  }

  lemma InertConcat(a: string, b: string)
    requires Inert(a) && Inert(b)
    ensures Inert(a + b)
  {
    forall k | 0 <= k < |a + b|
      ensures !TagBegins((a + b)[k..])
    {
      if k < |a| {
        assert (a + b)[k..] == a[k..] + b;
        TagStays(a[k..], b);
      } else {
        assert (a + b)[k..] == b[k - |a|..];
      }
    }
  }

  /** No tag stands at the front of an inert text. */
  lemma NothingStarts(t: string, s: string, ctx: Context)
    requires Inert(t) && t != ""
    ensures SubstituteBlocks(t + s, ctx) == [t[0]] + SubstituteBlocks(t[1..] + s, ctx)
    ensures SubstituteVariables(t + s, ctx) == [t[0]] + SubstituteVariables(t[1..] + s, ctx)
  {
    InertTail(t);
    TagStays(t, s);
    assert (t + s)[0] == t[0] && (t + s)[1..] == t[1..] + s;
  }

  predicate IsWord(s: string) {
    s != "" && forall i :: 0 <= i < |s| ==> WordChar(s[i])
  }

  lemma {:induction false} WordRunOf(n: string, s: string)
    requires forall i :: 0 <= i < |n| ==> WordChar(n[i])
    requires s != "" ==> !WordChar(s[0])
    ensures WordRun(n + s) == |n|
  {
    if n == "" {
      assert n + s == s;
    } else {
      WordRunOf(n[1..], s);
      assert (n + s)[1..] == n[1..] + s;
    }
  }

  lemma NameAtTagEnd(n: string, s: string)
    requires IsWord(n)
    ensures NameAt(n + ['}', '}'] + s) == Some(n)
  {
    var t := ['}', '}'] + s;
    assert n + ['}', '}'] + s == n + t;
    WordRunOf(n, t);
    assert (n + t)[|n|] == '}' && (n + t)[|n| + 1] == '}';
    assert (n + t)[..|n|] == n;
  }

  lemma Prepended(t: string, z: string)
    requires t != ""
    ensures [t[0]] + (t[1..] + z) == t + z
  {
  }

  lemma {:induction false} BlocksSkipText(t: string, s: string, ctx: Context)
    requires Inert(t)
    ensures SubstituteBlocks(t + s, ctx) == t + SubstituteBlocks(s, ctx)
  {
    if t == "" {
      assert t + s == s;
    } else {
      InertTail(t);
      NothingStarts(t, s, ctx);
      BlocksSkipText(t[1..], s, ctx);
      Prepended(t, SubstituteBlocks(s, ctx));
    }
  }

  lemma {:induction false} VariablesSkipText(t: string, s: string, ctx: Context)
    requires Inert(t)
    ensures SubstituteVariables(t + s, ctx) == t + SubstituteVariables(s, ctx)
  {
    if t == "" {
      assert t + s == s;
    } else {
      InertTail(t);
      NothingStarts(t, s, ctx);
      VariablesSkipText(t[1..], s, ctx);
      Prepended(t, SubstituteVariables(s, ctx));
    }
  }

  lemma CloseTagBegins(n: string, s: string)
    requires IsWord(n)
    ensures TagBegins(CloseTag(n) + s)
  {
    var u := n + ['}', '}'] + s;
    assert (CloseTag(n) + s)[3..] == u && u == n + (['}', '}'] + s);
    WordRunOf(n, ['}', '}'] + s);
    assert u[|n|] == '}' && u[|n| + 1] == '}';
  }

  lemma {:induction false} FindSkipsText(t: string, s: string, n: string)
    requires Inert(t) && IsWord(n)
    ensures FindTag(t + s, CloseTag(n))
         == if FindTag(s, CloseTag(n)) < 0 then -1 else |t| + FindTag(s, CloseTag(n))
  {
    if t == "" {
      assert t + s == s;
    } else {
      InertTail(t);
      TagStays(t, s);
      assert (t + s)[1..] == t[1..] + s;
      if CloseTag(n) <= t + s {
        var r := (t + s)[|CloseTag(n)|..];
        assert t + s == CloseTag(n) + r;
        CloseTagBegins(n, r);
      }
      FindSkipsText(t[1..], s, n);
    }
  }

  /** A position at which no pairable block opens is copied. */
  lemma BlocksCopy(c: char, s: string, ctx: Context)
    requires
      var u := [c] + s;
      OpenAt(u).None? || FindTag(u[|OpenAt(u).value| + 5..], CloseTag(OpenAt(u).value)) < 0
    ensures SubstituteBlocks([c] + s, ctx) == [c] + SubstituteBlocks(s, ctx)
  {
    assert ([c] + s)[1..] == s;
  }

  lemma TwoBraces(t: string, s: string)
    ensures ['{', '{'] + t + s == ['{'] + (['{'] + (t + s))
    ensures (['{'] + (['{'] + (t + s)))[2..] == t + s
    ensures t != "" ==> (['{'] + (t + s))[1] == t[0]
  {
  }

  /** Text that starts with a doubled brace but no pairable block opening is
      copied brace by brace: nothing starts at its second brace either. */
  lemma BlocksSkipTag(t: string, s: string, ctx: Context)
    requires Inert(t) && t != "" && t[0] != '{'
    requires
      var u := ['{', '{'] + t + s;
      OpenAt(u).None? || FindTag(u[|OpenAt(u).value| + 5..], CloseTag(OpenAt(u).value)) < 0
    ensures SubstituteBlocks(['{', '{'] + t + s, ctx) == ['{', '{'] + t + SubstituteBlocks(s, ctx)
  {
    TwoBraces(t, s);
    TwoBraces(t, SubstituteBlocks(s, ctx));
    BlocksCopy('{', ['{'] + (t + s), ctx);
    BlocksCopy('{', t + s, ctx);
    BlocksSkipText(t, s, ctx);
  }

  lemma VariablesCopy(c: char, s: string, ctx: Context)
    requires VarAt([c] + s).None?
    ensures SubstituteVariables([c] + s, ctx) == [c] + SubstituteVariables(s, ctx)
  {
    assert ([c] + s)[1..] == s;
  }

  lemma VariablesSkipTag(t: string, s: string, ctx: Context)
    requires Inert(t) && t != "" && !WordChar(t[0]) && t[0] != '{'
    ensures SubstituteVariables(['{', '{'] + t + s, ctx) == ['{', '{'] + t + SubstituteVariables(s, ctx)
  {
    TwoBraces(t, s);
    TwoBraces(t, SubstituteVariables(s, ctx));
    assert WordRun(t + s) == 0;
    VariablesCopy('{', ['{'] + (t + s), ctx);
    VariablesCopy('{', t + s, ctx);
    VariablesSkipText(t, s, ctx);
  }

  lemma VarAtTag(n: string, s: string)
    requires IsWord(n)
    ensures VarAt(VarTag(n) + s) == Some(n) && (VarTag(n) + s)[|n| + 4..] == s
  {
    assert (VarTag(n) + s)[2..] == n + ['}', '}'] + s;
    NameAtTagEnd(n, s);
  }

  /** A variable tag becomes its value. */
  lemma VariablesAtTag(n: string, s: string, ctx: Context)
    requires IsWord(n)
    ensures SubstituteVariables(VarTag(n) + s, ctx) == Value(ctx, n) + SubstituteVariables(s, ctx)
  {
    VarAtTag(n, s);
  }

  lemma FindSkipsTag(t: string, s: string, n: string)
    requires Inert(t) && t != "" && t[0] != '{' && IsWord(n)
    requires !(CloseTag(n) <= ['{', '{'] + t + s)
    ensures FindTag(['{', '{'] + t + s, CloseTag(n))
         == if FindTag(s, CloseTag(n)) < 0 then -1 else 2 + |t| + FindTag(s, CloseTag(n))
  {
    var u := ['{', '{'] + t + s;
    var v := ['{'] + t + s;
    assert u[1..] == v && v[1..] == t + s;
    assert v[1] == t[0];
    FindSkipsText(t, s, n);
  }

  /** Closing tags of different names are never prefixes of one another. */
  lemma CloseTagPrefix(n: string, m: string, s: string)
    requires IsWord(n) && IsWord(m) && CloseTag(n) <= CloseTag(m) + s
    ensures n == m
  {
    var u := CloseTag(m) + s;
    var v := u[|CloseTag(n)|..];
    assert u == CloseTag(n) + v;
    assert u[3..] == n + ['}', '}'] + v && u[3..] == m + ['}', '}'] + s;
    NameAtTagEnd(n, v);
    NameAtTagEnd(m, s);
  }
}
