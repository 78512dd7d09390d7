/** The renderer on characters and the renderer on tokens are one; and the exact
    condition under which rendering a printed template is evaluating it. */
module TemplateTheorems {
  import opened Common
  import opened Text
  import opened TemplateTokens
  import opened TemplateRender
  import opened TemplateValues

  function Show(tk: Token): string {
    match tk
    case Plain(text) => text
    case Var(n) => VarTag(n)
    case Open(n) => OpenTag(n)
    case Close(n) => CloseTag(n)
  }

  function Flat(ts: seq<Token>): string {
    if ts == [] then "" else Show(ts[0]) + Flat(ts[1..])
  }

  /** The template as its author writes it. */
  function PrintText(t: Template): string {
    Flat(Print(t))
  }

  predicate GoodToken(tk: Token) {
    if tk.Plain? then Inert(tk.text) else IsWord(tk.name)
  }

  predicate Good(ts: seq<Token>) {
    forall i :: 0 <= i < |ts| ==> GoodToken(ts[i])
  }

  /** Inert texts, and names of word characters. */
  predicate GoodTemplate(t: Template) {
    match t
    case End => true
    case Lit(text, rest) => Inert(text) && GoodTemplate(rest)
    case Ref(name, rest) => IsWord(name) && GoodTemplate(rest)
    case Block(name, body, rest) => IsWord(name) && GoodTemplate(body) && GoodTemplate(rest)
  }

  lemma {:induction false} FlatSplits(a: seq<Token>, b: seq<Token>)
    ensures Flat(a + b) == Flat(a) + Flat(b)
  {
    if a == [] {
      assert a + b == b;
    } else {
      var rest := a[1..];
      FlatSplits(rest, b);
      SplitHead(a, b);
      FlatSplitStep(a[0], rest, b);
    }
  }

  lemma SplitHead(a: seq<Token>, b: seq<Token>)
    requires a != []
    ensures a == [a[0]] + a[1..] && a + b == [a[0]] + (a[1..] + b)
  {
  }

  lemma FlatSplitStep(tk: Token, rest: seq<Token>, b: seq<Token>)
    requires Flat(rest + b) == Flat(rest) + Flat(b)
    ensures Flat([tk] + (rest + b)) == Flat([tk] + rest) + Flat(b)
  {
    FlatCons(tk, rest);
    FlatCons(tk, rest + b);
    Regroup(Show(tk), Flat(rest), Flat(b));
  }

  lemma FlatCons(tk: Token, ts: seq<Token>)
    ensures Flat([tk] + ts) == Show(tk) + Flat(ts)
  {
    assert ([tk] + ts)[1..] == ts;
  }

  // ----- finding the closing tag -----

  lemma WordTail(n: string)
    requires IsWord(n)
    ensures Inert(n + ['}', '}']) && Inert(['#'] + n + ['}', '}']) && Inert(['/'] + n + ['}', '}'])
    ensures WordChar(n[0])
  {
    UndoubledIsInert(n + ['}', '}']);
    UndoubledIsInert(['#'] + n + ['}', '}']);
    UndoubledIsInert(['/'] + n + ['}', '}']);
  }

  /** The tags as a doubled brace and an inert rest. */
  lemma TagShapes(n: string)
    ensures VarTag(n) == ['{', '{'] + (n + ['}', '}'])
    ensures OpenTag(n) == ['{', '{'] + (['#'] + n + ['}', '}'])
    ensures CloseTag(n) == ['{', '{'] + (['/'] + n + ['}', '}'])
  {
  }

  lemma FindSkipsToken(tk: Token, s: string, n: string)
    requires GoodToken(tk) && IsWord(n) && tk != Close(n)
    ensures FindTag(Show(tk) + s, CloseTag(n)) ==
      if FindTag(s, CloseTag(n)) < 0 then -1 else |Show(tk)| + FindTag(s, CloseTag(n))
  {
    var tag := CloseTag(n);
    match tk
    case Plain(text) =>
      FindSkipsText(text, s, n);
    case Var(m) =>
      TagShapes(m);
      WordTail(m);
      var u := ['{', '{'] + (m + ['}', '}']) + s;
      assert u[2] == m[0] && tag[2] == '/';
      FindSkipsTag(m + ['}', '}'], s, n);
    case Open(m) =>
      TagShapes(m);
      WordTail(m);
      var u := ['{', '{'] + (['#'] + m + ['}', '}']) + s;
      assert u[2] == '#' && tag[2] == '/';
      FindSkipsTag(['#'] + m + ['}', '}'], s, n);
    case Close(m) =>
      TagShapes(m);
      WordTail(m);
      if tag <= CloseTag(m) + s {
        CloseTagPrefix(n, m, s);
      }
      FindSkipsTag(['/'] + m + ['}', '}'], s, n);
  }

  /** On good tokens the text of the first closing tag is found where the first
      closing tag is. */
  lemma {:induction false} FindFlat(ts: seq<Token>, n: string)
    requires Good(ts) && IsWord(n)
    ensures FindTag(Flat(ts), CloseTag(n)) ==
      if FirstClose(ts, n) < 0 then -1 else |Flat(ts[..FirstClose(ts, n)])|
  {
    if ts != [] {
      if ts[0] != Close(n) {
        FindFlat(ts[1..], n);
        FindSkipsToken(ts[0], Flat(ts[1..]), n);
        var k := FirstClose(ts[1..], n);
        if k >= 0 {
          var head := ts[..k + 1];
          assert head[0] == ts[0] && head[1..] == ts[1..][..k];
          assert Flat(head) == Show(ts[0]) + Flat(head[1..]);
        }
      } else {
        assert ts[..0] == [];
      }
    }
  }

  // ----- the first pass -----

  lemma BlocksSkipToken(tk: Token, s: string, ctx: Context)
    requires GoodToken(tk) && (tk.Open? ==> FindTag(s, CloseTag(tk.name)) < 0)
    ensures SubstituteBlocks(Show(tk) + s, ctx) == Show(tk) + SubstituteBlocks(s, ctx)
  {
    match tk
    case Plain(text) =>
      BlocksSkipText(text, s, ctx);
    case Var(m) =>
      TagShapes(m);
      WordTail(m);
      assert (['{', '{'] + (m + ['}', '}']) + s)[2] == m[0];
      BlocksSkipTag(m + ['}', '}'], s, ctx);
    case Open(m) =>
      TagShapes(m);
      WordTail(m);
      OpenAtTag(m, s);
      BlocksSkipTag(['#'] + m + ['}', '}'], s, ctx);
    case Close(m) =>
      TagShapes(m);
      WordTail(m);
      assert (['{', '{'] + (['/'] + m + ['}', '}']) + s)[2] == '/';
      BlocksSkipTag(['/'] + m + ['}', '}'], s, ctx);
  }

  lemma OpenAtTag(n: string, s: string)
    requires IsWord(n)
    ensures OpenAt(OpenTag(n) + s) == Some(n)
    ensures (OpenTag(n) + s)[|n| + 5..] == s
  {
    assert (OpenTag(n) + s)[3..] == n + ['}', '}'] + s;
    NameAtTagEnd(n, s);
  }

  lemma BlocksAtTag(n: string, inner: string, rest: string, ctx: Context)
    requires IsWord(n) && FindTag(inner + CloseTag(n) + rest, CloseTag(n)) == |inner|
    ensures SubstituteBlocks(OpenTag(n) + (inner + CloseTag(n) + rest), ctx) ==
      (if IsOff(ctx, n) then "" else RenderMessageTemplate(inner, ctx)) + SubstituteBlocks(rest, ctx)
  {
    var s := inner + CloseTag(n) + rest;
    OpenAtTag(n, s);
    assert s[..|inner|] == inner;
    assert s[|inner| + |n| + 5..] == rest;
  }

  lemma TokensCut(ts: seq<Token>, k: nat)
    requires ts != [] && ts[0].Open? && FirstClose(ts[1..], ts[0].name) == k
    ensures ts[1..] == ts[1..k + 1] + ([Close(ts[0].name)] + ts[k + 2..]) && ts[1..][..k] == ts[1..k + 1]
  {
    FirstCloseIs(ts[1..], ts[0].name);
  }

  lemma FlatCut(inner: seq<Token>, n: string, rest: seq<Token>)
    ensures Flat(inner + ([Close(n)] + rest)) == Flat(inner) + CloseTag(n) + Flat(rest)
  {
    FlatSplits(inner, [Close(n)] + rest);
    FlatCons(Close(n), rest);
    Regroup(Flat(inner), CloseTag(n), Flat(rest));
  }

  /** The text of an opening tag and what follows it, cut at its closing tag. */
  lemma BlockParts(ts: seq<Token>, k: nat)
    requires Good(ts) && ts != [] && ts[0].Open? && FirstClose(ts[1..], ts[0].name) == k
    ensures
      var n, inner, rest := ts[0].name, Flat(ts[1..k + 1]), Flat(ts[k + 2..]);
      && Flat(ts) == OpenTag(n) + (inner + CloseTag(n) + rest)
      && FindTag(inner + CloseTag(n) + rest, CloseTag(n)) == |inner|
  {
    var n := ts[0].name;
    TokensCut(ts, k);
    FlatCut(ts[1..k + 1], n, ts[k + 2..]);
    assert GoodToken(ts[0]);
    GoodParts(ts, 1, |ts|);
    FindFlat(ts[1..], n);
  }

  lemma BlockPassUnfolds(ts: seq<Token>, ctx: Context)
    requires ts != []
    ensures
      var k := if ts[0].Open? then FirstClose(ts[1..], ts[0].name) else -1;
      BlockPass(ts, ctx) ==
        if k >= 0 then
          (if IsOff(ctx, ts[0].name) then [] else RenderTokens(ts[1..k + 1], ctx)) + BlockPass(ts[k + 2..], ctx)
        else [ts[0]] + BlockPass(ts[1..], ctx)
  {
  }

  // ----- tokens between the passes -----

  /** Between the passes plain text may also be a value. */
  ghost predicate StillToken(tk: Token, ctx: Context) {
    if tk.Plain? then Still(tk.text, ctx) else IsWord(tk.name)
  }

  ghost predicate StillTokens(ts: seq<Token>, ctx: Context) {
    forall i :: 0 <= i < |ts| ==> StillToken(ts[i], ctx)
  }

  lemma StillAppend(a: seq<Token>, b: seq<Token>, ctx: Context)
    requires StillTokens(a, ctx) && StillTokens(b, ctx)
    ensures StillTokens(a + b, ctx)
  {
    forall i | 0 <= i < |a + b|
      ensures StillToken((a + b)[i], ctx)
    {
      if i < |a| {
        assert StillToken(a[i], ctx);
      } else {
        assert StillToken(b[i - |a|], ctx);
      }
    }
  }

  // ----- the first pass, token by token -----

  lemma PairText(ts: seq<Token>, k: nat, ctx: Context)
    requires Good(ts) && ts != [] && ts[0].Open? && FirstClose(ts[1..], ts[0].name) == k
    ensures SubstituteBlocks(Flat(ts), ctx)
      == (if IsOff(ctx, ts[0].name) then "" else RenderMessageTemplate(Flat(ts[1..k + 1]), ctx))
         + SubstituteBlocks(Flat(ts[k + 2..]), ctx)
  {
    assert GoodToken(ts[0]);
    BlockParts(ts, k);
    BlocksAtTag(ts[0].name, Flat(ts[1..k + 1]), Flat(ts[k + 2..]), ctx);
  }

  lemma PairTokens(ts: seq<Token>, k: nat, ctx: Context)
    requires ts != [] && ts[0].Open? && FirstClose(ts[1..], ts[0].name) == k
    ensures Flat(BlockPass(ts, ctx))
      == (if IsOff(ctx, ts[0].name) then "" else Flat(RenderTokens(ts[1..k + 1], ctx)))
         + Flat(BlockPass(ts[k + 2..], ctx))
  {
    BlockPassUnfolds(ts, ctx);
    FlatSplits(if IsOff(ctx, ts[0].name) then [] else RenderTokens(ts[1..k + 1], ctx), BlockPass(ts[k + 2..], ctx));
  }

  lemma TokenFlat(ts: seq<Token>, ctx: Context)
    requires Good(ts) && ts != [] && (ts[0].Open? ==> FirstClose(ts[1..], ts[0].name) < 0)
    requires SubstituteBlocks(Flat(ts[1..]), ctx) == Flat(BlockPass(ts[1..], ctx))
    ensures SubstituteBlocks(Flat(ts), ctx) == Flat(BlockPass(ts, ctx))
  {
    assert GoodToken(ts[0]);
    BlockPassUnfolds(ts, ctx);
    if ts[0].Open? {
      FindFlat(ts[1..], ts[0].name);
    }
    BlocksSkipToken(ts[0], Flat(ts[1..]), ctx);
    FlatCons(ts[0], BlockPass(ts[1..], ctx));
  }

  lemma GoodParts(ts: seq<Token>, i: nat, j: nat)
    requires Good(ts) && i <= j <= |ts|
    ensures Good(ts[i..j])
  {
    forall x | 0 <= x < j - i
      ensures GoodToken(ts[i..j][x])
    {
      assert GoodToken(ts[i + x]);
    }
  }

  lemma {:induction false} BlocksFlat(ts: seq<Token>, ctx: Context)
    requires Good(ts) && StableContext(ctx)
    ensures SubstituteBlocks(Flat(ts), ctx) == Flat(BlockPass(ts, ctx))
    ensures StillTokens(BlockPass(ts, ctx), ctx)
    decreases |ts|, 1
  {
    if ts != [] {
      if ts[0].Open? && FirstClose(ts[1..], ts[0].name) >= 0 {
        BlocksFlatPair(ts, FirstClose(ts[1..], ts[0].name), ctx);
      } else {
        BlocksFlatToken(ts, ctx);
      }
    }
  }

  lemma {:induction false} BlocksFlatPair(ts: seq<Token>, k: nat, ctx: Context)
    requires Good(ts) && StableContext(ctx)
    requires ts != [] && ts[0].Open? && FirstClose(ts[1..], ts[0].name) == k
    ensures SubstituteBlocks(Flat(ts), ctx) == Flat(BlockPass(ts, ctx))
    ensures StillTokens(BlockPass(ts, ctx), ctx)
    decreases |ts|, 0
  {
    var inner, rest := ts[1..k + 1], ts[k + 2..];
    GoodParts(ts, 1, k + 1);
    GoodParts(ts, k + 2, |ts|);
    BlocksFlat(rest, ctx);
    RenderFlat(inner, ctx);
    PairText(ts, k, ctx);
    PairTokens(ts, k, ctx);
    BlockPassUnfolds(ts, ctx);
    StillAppend(if IsOff(ctx, ts[0].name) then [] else RenderTokens(inner, ctx), BlockPass(rest, ctx), ctx);
  }

  lemma {:induction false} BlocksFlatToken(ts: seq<Token>, ctx: Context)
    requires Good(ts) && StableContext(ctx)
    requires ts != [] && (ts[0].Open? ==> FirstClose(ts[1..], ts[0].name) < 0)
    ensures SubstituteBlocks(Flat(ts), ctx) == Flat(BlockPass(ts, ctx))
    ensures StillTokens(BlockPass(ts, ctx), ctx)
    decreases |ts|, 0
  {
    GoodParts(ts, 1, |ts|);
    BlocksFlat(ts[1..], ctx);
    TokenFlat(ts, ctx);
    BlockPassUnfolds(ts, ctx);
    OneIsStill(ts, ctx);
    StillAppend([ts[0]], BlockPass(ts[1..], ctx), ctx);
  }

  lemma OneIsStill(ts: seq<Token>, ctx: Context)
    requires Good(ts) && ts != []
    ensures StillTokens([ts[0]], ctx)
  {
    assert GoodToken(ts[0]);
    if ts[0].Plain? {
      InertIsStill(ts[0].text, ctx);
    }
  }

  lemma {:induction false} FirstCloseIs(ts: seq<Token>, n: string)
    ensures FirstClose(ts, n) >= 0 ==> ts[FirstClose(ts, n)] == Close(n)
  {
    if ts != [] && ts[0] != Close(n) {
      FirstCloseIs(ts[1..], n);
    }
  }

  // ----- the second pass -----

  lemma VariablesFlatStep(tk: Token, ts: seq<Token>, ctx: Context)
    requires StillToken(tk, ctx)
    ensures SubstituteVariables(Show(tk) + Flat(ts), ctx)
      == (if tk.Var? then Value(ctx, tk.name) else Show(tk)) + SubstituteVariables(Flat(ts), ctx)
  {
    match tk
    case Plain(text) =>
      StillAt(text, Flat(ts), ctx);
    case Var(n) =>
      VariablesAtTag(n, Flat(ts), ctx);
    case Open(n) =>
      TagShapes(n);
      WordTail(n);
      VariablesSkipTag(['#'] + n + ['}', '}'], Flat(ts), ctx);
    case Close(n) =>
      TagShapes(n);
      WordTail(n);
      VariablesSkipTag(['/'] + n + ['}', '}'], Flat(ts), ctx);
  }

  lemma {:induction false} VariablesFlat(ts: seq<Token>, ctx: Context)
    requires StillTokens(ts, ctx)
    ensures SubstituteVariables(Flat(ts), ctx) == Flat(VariablePass(ts, ctx))
  {
    if ts != [] {
      assert StillToken(ts[0], ctx);
      assert StillTokens(ts[1..], ctx) by {
        assert forall i :: 0 <= i < |ts| - 1 ==> ts[1..][i] == ts[i + 1];
      }
      VariablesFlat(ts[1..], ctx);
      VariablesFlatStep(ts[0], ts[1..], ctx);
      FlatCons(if ts[0].Var? then Plain(Value(ctx, ts[0].name)) else ts[0], VariablePass(ts[1..], ctx));
    }
  }

  lemma ValueIsStill(n: string, ctx: Context)
    requires StableContext(ctx) && IsWord(n)
    ensures Still(Value(ctx, n), ctx)
  {
    if n in ctx {
      StableIsStill(ctx[n], ctx);
    } else {
      EmptyIsStill(ctx);
    }
  }

  lemma {:induction false} VariablePassIsStill(ts: seq<Token>, ctx: Context)
    requires StillTokens(ts, ctx) && StableContext(ctx)
    ensures StillTokens(VariablePass(ts, ctx), ctx)
  {
    if ts != [] {
      assert StillToken(ts[0], ctx);
      assert StillTokens(ts[1..], ctx) by {
        assert forall i :: 0 <= i < |ts| - 1 ==> ts[1..][i] == ts[i + 1];
      }
      VariablePassIsStill(ts[1..], ctx);
      var tk := if ts[0].Var? then Plain(Value(ctx, ts[0].name)) else ts[0];
      if ts[0].Var? {
        ValueIsStill(ts[0].name, ctx);
      }
      StillAppend([tk], VariablePass(ts[1..], ctx), ctx);
    }
  }

  /** The two renderers agree on every sequence of good tokens, printed from a
      template or not, under every context with stable values. */
  lemma {:induction false} RenderFlat(ts: seq<Token>, ctx: Context)
    requires Good(ts) && StableContext(ctx)
    ensures RenderMessageTemplate(Flat(ts), ctx) == Flat(RenderTokens(ts, ctx))
    ensures StillTokens(RenderTokens(ts, ctx), ctx)
    decreases |ts|, 2
  {
    BlocksFlat(ts, ctx);
    VariablesFlat(BlockPass(ts, ctx), ctx);
    VariablePassIsStill(BlockPass(ts, ctx), ctx);
  }

  // ----- printed templates -----

  lemma {:induction false} PrintIsGood(t: Template)
    requires GoodTemplate(t)
    ensures Good(Print(t))
  {
    match t
    case End =>
    case Lit(_, rest) => PrintIsGood(rest);
    case Ref(_, rest) => PrintIsGood(rest);
    case Block(_, body, rest) =>
      PrintIsGood(body);
      PrintIsGood(rest);
  }

  lemma {:induction false} FlatEval(t: Template, ctx: Context)
    ensures Flat(EvalTokens(t, ctx)) == Eval(t, ctx)
  {
    match t
    case End =>
    case Lit(_, rest) => FlatEval(rest, ctx);
    case Ref(_, rest) => FlatEval(rest, ctx);
    case Block(n, body, rest) =>
      FlatEval(rest, ctx);
      if !IsOff(ctx, n) {
        FlatEval(body, ctx);
      }
      FlatSplits(if IsOff(ctx, n) then [] else EvalTokens(body, ctx), EvalTokens(rest, ctx));
  }

  lemma {:induction false} EvalIsInert(t: Template, ctx: Context)
    requires GoodTemplate(t) && InertContext(ctx)
    ensures Inert(Eval(t, ctx))
  {
    match t
    case End =>
    case Lit(text, rest) =>
      EvalIsInert(rest, ctx);
      InertConcat(text, Eval(rest, ctx));
    case Ref(name, rest) =>
      EvalIsInert(rest, ctx);
      InertConcat(Value(ctx, name), Eval(rest, ctx));
    case Block(n, body, rest) =>
      EvalIsInert(rest, ctx);
      EvalIsInert(body, ctx);
      InertConcat(if IsOff(ctx, n) then "" else Eval(body, ctx), Eval(rest, ctx));
  }

  /** A closing tag shows as one. */
  lemma {:induction false} CloseShows(ts: seq<Token>, ctx: Context) returns (j: nat)
    requires StillTokens(ts, ctx) && HasClose(ts)
    ensures j < |Flat(ts)| && TagBegins(Flat(ts)[j..])
  {
    assert StillToken(ts[0], ctx);
    if ts[0].Close? {
      j := 0;
      CloseTagBegins(ts[0].name, Flat(ts[1..]));
      assert Flat(ts)[0..] == CloseTag(ts[0].name) + Flat(ts[1..]);
    } else {
      var i :| 0 <= i < |ts| && ts[i].Close?;
      assert ts[1..][i - 1].Close?;
      assert forall x :: 0 <= x < |ts| - 1 ==> ts[1..][x] == ts[x + 1];
      var k := CloseShows(ts[1..], ctx);
      j := |Show(ts[0])| + k;
      assert Flat(ts)[j..] == Flat(ts[1..])[k..];
    }
  }

  /** With inert values, rendering the text of a template gives the template's
      meaning if and only if no block outside a switched-off block contains a block
      of its own name. */
  lemma RenderIsEvalExactly(t: Template, ctx: Context)
    requires GoodTemplate(t) && InertContext(ctx)
    ensures RenderMessageTemplate(PrintText(t), ctx) == Eval(t, ctx) <==> LiveNesting(t, ctx)
  {
    PrintIsGood(t);
    InertContextIsStable(ctx);
    RenderFlat(Print(t), ctx);
    if LiveNesting(t, ctx) {
      RenderPrintIsEval(t, ctx);
      FlatEval(t, ctx);
    } else {
      SelfNestingLeavesTag(t, ctx);
      var j := CloseShows(RenderTokens(Print(t), ctx), ctx);
      EvalIsInert(t, ctx);
    }
  }

  // ----- every context at once -----

  function BlockNames(t: Template): set<string> {
    match t
    case End => {}
    case Lit(_, rest) => BlockNames(rest)
    case Ref(_, rest) => BlockNames(rest)
    case Block(name, body, rest) => {name} + BlockNames(body) + BlockNames(rest)
  }

  function AllOn(names: set<string>): Context {
    map n | n in names :: "x"
  }

  lemma {:induction false} AllOnIsLive(t: Template, names: set<string>)
    requires BlockNames(t) <= names
    ensures LiveNesting(t, AllOn(names)) <==> NoSelfNesting(t)
  {
    match t
    case End =>
    case Lit(_, rest) => AllOnIsLive(rest, names);
    case Ref(_, rest) => AllOnIsLive(rest, names);
    case Block(n, body, rest) =>
      AllOnIsLive(body, names);
      AllOnIsLive(rest, names);
      assert Value(AllOn(names), n) == "x";
      assert StripLeft("x") == "x" && StripRight("x") == "x";
  }

  lemma {:induction false} NoSelfNestingIsLive(t: Template, ctx: Context)
    requires NoSelfNesting(t)
    ensures LiveNesting(t, ctx)
  {
    match t
    case End =>
    case Lit(_, rest) => NoSelfNestingIsLive(rest, ctx);
    case Ref(_, rest) => NoSelfNestingIsLive(rest, ctx);
    case Block(_, body, rest) =>
      NoSelfNestingIsLive(body, ctx);
      NoSelfNestingIsLive(rest, ctx);
  }

  // ----- values with braces -----

  /** A value that itself reads as a variable is left alone at top level, but is
      substituted again when it stands in a block: the text of a block passes
      through the variable substitution twice. */
  lemma ValueInBlockIsSubstitutedTwice(n: string, m: string, b: string, ctx: Context)
    requires IsWord(n) && IsWord(m) && IsWord(b) && !IsOff(ctx, n) && Value(ctx, m) == VarTag(b)
    ensures RenderMessageTemplate(PrintText(Ref(m, End)), ctx) == VarTag(b)
    ensures RenderMessageTemplate(PrintText(Block(n, Ref(m, End), End)), ctx) == Value(ctx, b)
  {
    VariableAlone(m, ctx);
    VariableAlone(b, ctx);
    PrintOfOne(n, m);
    FlatOne(Var(m));
    BlockOfOne(n, Var(m), ctx);
  }

  lemma PrintOfOne(n: string, m: string)
    ensures Print(Ref(m, End)) == [Var(m)]
    ensures Print(Block(n, Ref(m, End), End)) == [Open(n), Var(m), Close(n)]
  {
  }

  lemma FlatOne(tk: Token)
    ensures Flat([tk]) == Show(tk)
  {
    assert [tk][1..] == [];
    assert Flat([tk]) == Show(tk) + "";
  }

  /** A switched-on block around one token renders to the token rendered, passed
      through the variable substitution once more. */
  lemma BlockOfOne(n: string, tk: Token, ctx: Context)
    requires IsWord(n) && GoodToken(tk) && tk.Var? && !IsOff(ctx, n)
    ensures RenderMessageTemplate(Flat([Open(n), tk, Close(n)]), ctx) ==
      SubstituteVariables(RenderMessageTemplate(Show(tk), ctx), ctx)
  {
    var ts := [Open(n), tk, Close(n)];
    FirstCloseAfter([tk], n, []);
    assert ts[1..] == [tk] + [Close(n)] + [];
    BlockParts(ts, 1);
    assert ts[1..1 + 1] == [tk] && ts[1 + 2..] == [];
    FlatOne(tk);
    BlocksAtTag(n, Show(tk), "", ctx);
    assert SubstituteBlocks("", ctx) == "";
    var shown := RenderMessageTemplate(Show(tk), ctx);
    assert shown + "" == shown;
  }

  lemma VariableAlone(m: string, ctx: Context)
    requires IsWord(m)
    ensures RenderMessageTemplate(VarTag(m), ctx) == Value(ctx, m)
    ensures SubstituteVariables(VarTag(m), ctx) == Value(ctx, m)
  {
    var v := VarTag(m);
    BlocksSkipToken(Var(m), "", ctx);
    assert v + "" == v;
    VarAtTag(m, "");
    assert SubstituteBlocks(v, ctx) == v;
    assert v[|m| + 4..] == "" && SubstituteVariables("", ctx) == "";
    assert SubstituteVariables(v, ctx) == Value(ctx, m);
  }
}
