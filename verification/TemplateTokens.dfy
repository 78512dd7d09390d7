/** Message templates as block trees, their printed tokens, and the renderer on
    tokens: a scan that pairs each block opening with the first closing tag of
    the same name, then a pass that substitutes variables. */
module TemplateTokens {
  import opened Common
  import opened Text

  /** The source keeps context values as strings; a missing name is empty. */
  type Context = map<string, string>

  function Value(ctx: Context, name: string): string {
    if name in ctx then ctx[name] else ""
  }

  predicate IsOff(ctx: Context, name: string) {
    Strip(Value(ctx, name)) == ""
  }

  // ----- templates -----

  datatype Template =
    | End
    | Lit(text: string, rest: Template)
    | Ref(name: string, rest: Template)
    | Block(name: string, body: Template, rest: Template)

  /** What the template means: a block shows its body unless its variable is
      blank. */
  function Eval(t: Template, ctx: Context): string {
    match t
    case End => ""
    case Lit(text, rest) => text + Eval(rest, ctx)
    case Ref(name, rest) => Value(ctx, name) + Eval(rest, ctx)
    case Block(name, body, rest) => (if IsOff(ctx, name) then "" else Eval(body, ctx)) + Eval(rest, ctx)
  }

  predicate HasBlock(t: Template, n: string) {
    match t
    case End => false
    case Lit(_, rest) => HasBlock(rest, n)
    case Ref(_, rest) => HasBlock(rest, n)
    case Block(name, body, rest) => name == n || HasBlock(body, n) || HasBlock(rest, n)
  }

  /** No block contains a block of its own name. */
  predicate NoSelfNesting(t: Template) {
    match t
    case End => true
    case Lit(_, rest) => NoSelfNesting(rest)
    case Ref(_, rest) => NoSelfNesting(rest)
    case Block(name, body, rest) => !HasBlock(body, name) && NoSelfNesting(body) && NoSelfNesting(rest)
  }

  /** As before, for the blocks that are not inside a block that is off. */
  predicate LiveNesting(t: Template, ctx: Context) {
    match t
    case End => true
    case Lit(_, rest) => LiveNesting(rest, ctx)
    case Ref(_, rest) => LiveNesting(rest, ctx)
    case Block(name, body, rest) =>
      !HasBlock(body, name) && (IsOff(ctx, name) || LiveNesting(body, ctx)) && LiveNesting(rest, ctx)
  }

  // ----- tokens -----

  datatype Token = Plain(text: string) | Var(name: string) | Open(name: string) | Close(name: string)

  function Print(t: Template): seq<Token> {
    match t
    case End => []
    case Lit(text, rest) => [Plain(text)] + Print(rest)
    case Ref(name, rest) => [Var(name)] + Print(rest)
    case Block(name, body, rest) => [Open(name)] + Print(body) + [Close(name)] + Print(rest)
  }

  /** The position of the first closing tag for `n`, or -1. */
  function FirstClose(ts: seq<Token>, n: string): (k: int)
    ensures -1 <= k < |ts|
  {
    if ts == [] then -1
    else if ts[0] == Close(n) then 0
    else
      var k := FirstClose(ts[1..], n);
      if k < 0 then -1 else k + 1
  }

  function BlockPass(ts: seq<Token>, ctx: Context): seq<Token>
    decreases |ts|, 0
  {
    if ts == [] then []
    else if ts[0].Open? && FirstClose(ts[1..], ts[0].name) >= 0 then
      var k := FirstClose(ts[1..], ts[0].name);
      (if IsOff(ctx, ts[0].name) then [] else RenderTokens(ts[1..k + 1], ctx)) + BlockPass(ts[k + 2..], ctx)
    else [ts[0]] + BlockPass(ts[1..], ctx)
  }

  function VariablePass(ts: seq<Token>, ctx: Context): seq<Token> {
    if ts == [] then []
    else [if ts[0].Var? then Plain(Value(ctx, ts[0].name)) else ts[0]] + VariablePass(ts[1..], ctx)
  }

  function RenderTokens(ts: seq<Token>, ctx: Context): seq<Token>
    decreases |ts|, 1
  {
    VariablePass(BlockPass(ts, ctx), ctx)
  }

  // ----- the two passes on printed templates -----

  lemma {:induction false} FirstCloseAfter(a: seq<Token>, n: string, b: seq<Token>)
    requires Close(n) !in a
    ensures FirstClose(a + [Close(n)] + b, n) == |a|
  {
    var s := a + [Close(n)] + b;
    if a != [] {
      FirstCloseAfter(a[1..], n, b);
      assert s[1..] == a[1..] + [Close(n)] + b;
    }
  }

  lemma {:induction false} FirstCloseWithin(a: seq<Token>, n: string, b: seq<Token>)
    requires Close(n) in a
    ensures 0 <= FirstClose(a + b, n) < |a|
  {
    if a[0] != Close(n) {
      FirstCloseWithin(a[1..], n, b);
      assert (a + b)[1..] == a[1..] + b;
    }
  }

  lemma {:induction false} ClosesPrinted(t: Template, n: string)
    ensures Close(n) in Print(t) <==> HasBlock(t, n)
  {
    match t
    case End =>
    case Lit(_, rest) => ClosesPrinted(rest, n);
    case Ref(_, rest) => ClosesPrinted(rest, n);
    case Block(_, body, rest) =>
      ClosesPrinted(body, n);
      ClosesPrinted(rest, n);
  }

  /** The scan at an opening tag, with the closing tag and the two parts named. */
  lemma BlockPassAt(ts: seq<Token>, n: string, inner: seq<Token>, rest: seq<Token>, ctx: Context)
    requires ts == [Open(n)] + inner + [Close(n)] + rest && Close(n) !in inner
    ensures BlockPass(ts, ctx) ==
      (if IsOff(ctx, n) then [] else RenderTokens(inner, ctx)) + BlockPass(rest, ctx)
  {
    FirstCloseAfter(inner, n, rest);
    var k := |inner|;
    assert ts[1..] == inner + [Close(n)] + rest;
    assert ts[1..k + 1] == inner;
    assert ts[k + 2..] == rest;
  }

  /** A block without a same-named block inside is scanned as printed. */
  lemma BlockPassBlock(n: string, body: Template, rest: Template, ctx: Context)
    requires !HasBlock(body, n)
    ensures BlockPass(Print(Block(n, body, rest)), ctx) ==
      (if IsOff(ctx, n) then [] else RenderTokens(Print(body), ctx)) + BlockPass(Print(rest), ctx)
  {
    ClosesPrinted(body, n);
    BlockPassAt(Print(Block(n, body, rest)), n, Print(body), Print(rest), ctx);
  }

  lemma {:induction false} VariablePassSplits(a: seq<Token>, b: seq<Token>, ctx: Context)
    ensures VariablePass(a + b, ctx) == VariablePass(a, ctx) + VariablePass(b, ctx)
  {
    if a == [] {
      assert a + b == b;
    } else {
      VariablePassSplits(a[1..], b, ctx);
      SumFront(a, b);
      Regroup(VariablePass(a, ctx)[..1], VariablePass(a[1..], ctx), VariablePass(b, ctx));
    }
  }

  lemma SumFront(a: seq<Token>, b: seq<Token>)
    requires a != []
    ensures (a + b)[0] == a[0] && (a + b)[1..] == a[1..] + b
  {
  }

  /** The tokens of a rendered template: text only. */
  function EvalTokens(t: Template, ctx: Context): seq<Token> {
    match t
    case End => []
    case Lit(text, rest) => [Plain(text)] + EvalTokens(rest, ctx)
    case Ref(name, rest) => [Plain(Value(ctx, name))] + EvalTokens(rest, ctx)
    case Block(name, body, rest) =>
      (if IsOff(ctx, name) then [] else EvalTokens(body, ctx)) + EvalTokens(rest, ctx)
  }

  predicate AllPlain(ts: seq<Token>) {
    forall i :: 0 <= i < |ts| ==> ts[i].Plain?
  }

  lemma {:induction false} EvalIsPlain(t: Template, ctx: Context)
    ensures AllPlain(EvalTokens(t, ctx))
  {
    match t
    case End =>
    case Lit(_, rest) => EvalIsPlain(rest, ctx);
    case Ref(_, rest) => EvalIsPlain(rest, ctx);
    case Block(_, body, rest) =>
      EvalIsPlain(body, ctx);
      EvalIsPlain(rest, ctx);
  }

  /** The second pass changes nothing in a block that is already rendered. */
  lemma {:induction false} RenderedBlockIsStable(ts: seq<Token>, ctx: Context)
    requires AllPlain(ts)
    ensures VariablePass(ts, ctx) == ts
  {
    if ts != [] {
      RenderedBlockIsStable(ts[1..], ctx);
    }
  }

  /** Rendering what was printed is evaluating. */
  lemma {:induction false} RenderPrintIsEval(t: Template, ctx: Context)
    requires LiveNesting(t, ctx)
    ensures RenderTokens(Print(t), ctx) == EvalTokens(t, ctx)
  {
    match t
    case End =>
    case Lit(_, rest) =>
      RenderPrintIsEval(rest, ctx);
      assert Print(t)[1..] == Print(rest);
      VariablePassSplits([Print(t)[0]], BlockPass(Print(rest), ctx), ctx);
    case Ref(_, rest) =>
      RenderPrintIsEval(rest, ctx);
      assert Print(t)[1..] == Print(rest);
      VariablePassSplits([Print(t)[0]], BlockPass(Print(rest), ctx), ctx);
    case Block(n, body, rest) =>
      BlockPassBlock(n, body, rest, ctx);
      RenderPrintIsEval(rest, ctx);
      var shown := if IsOff(ctx, n) then [] else RenderTokens(Print(body), ctx);
      if !IsOff(ctx, n) {
        RenderPrintIsEval(body, ctx);
        EvalIsPlain(body, ctx);
      }
      RenderedBlockIsStable(shown, ctx);
      VariablePassSplits(shown, BlockPass(Print(rest), ctx), ctx);
  }

  // ----- what goes wrong otherwise -----

  /** Every opening tag has a closing tag of its name further on. */
  predicate Closed(ts: seq<Token>) {
    ts == [] || ((ts[0].Open? ==> Close(ts[0].name) in ts[1..]) && Closed(ts[1..]))
  }

  lemma {:induction false} ClosedSuffix(ts: seq<Token>, k: nat)
    requires Closed(ts) && k <= |ts|
    ensures Closed(ts[k..])
  {
    if k > 0 {
      ClosedSuffix(ts[1..], k - 1);
      assert ts[1..][k - 1..] == ts[k..];
    }
  }

  lemma {:induction false} ClosedConcat(a: seq<Token>, b: seq<Token>)
    requires Closed(a) && Closed(b)
    ensures Closed(a + b)
  {
    if a == [] {
      assert a + b == b;
    } else {
      ClosedConcat(a[1..], b);
      assert (a + b)[1..] == a[1..] + b;
    }
  }

  lemma ClosedBlock(n: string, b: seq<Token>, r: seq<Token>)
    requires Closed(b) && Closed(r)
    ensures Closed([Open(n)] + b + [Close(n)] + r)
  {
    var tail := [Close(n)] + r;
    assert tail[1..] == r;
    ClosedConcat(b, tail);
    var s := [Open(n)] + b + [Close(n)] + r;
    assert s[1..] == b + tail;
    assert s[1..][|b|] == Close(n);
  }

  lemma {:induction false} PrintIsClosed(t: Template)
    ensures Closed(Print(t))
  {
    match t
    case End =>
    case Lit(text, rest) =>
      PrintIsClosed(rest);
      assert Print(t)[1..] == Print(rest);
    case Ref(name, rest) =>
      PrintIsClosed(rest);
      assert Print(t)[1..] == Print(rest);
    case Block(n, body, rest) =>
      PrintIsClosed(body);
      PrintIsClosed(rest);
      ClosedBlock(n, Print(body), Print(rest));
  }

  ghost predicate HasClose(ts: seq<Token>) {
    exists i :: 0 <= i < |ts| && ts[i].Close?
  }

  lemma HasCloseConcat(a: seq<Token>, b: seq<Token>)
    requires HasClose(a) || HasClose(b)
    ensures HasClose(a + b)
  {
    if i :| 0 <= i < |a| && a[i].Close? {
      assert (a + b)[i].Close?;
    }
    if i :| 0 <= i < |b| && b[i].Close? {
      assert (a + b)[|a| + i].Close?;
    }
  }

  lemma DropFront(a: seq<Token>, c: seq<Token>, b: seq<Token>, k: nat)
    requires k <= |a|
    ensures (a + c + b)[k..] == a[k..] + c + b
  {
  }

  /** A closing tag behind a closed stretch is never consumed by it. */
  lemma {:induction false} StrayCloseStays(a: seq<Token>, n: string, b: seq<Token>, ctx: Context)
    requires Closed(a)
    ensures HasClose(BlockPass(a + [Close(n)] + b, ctx))
    decreases |a|
  {
    var s := a + [Close(n)] + b;
    if a == [] {
      assert BlockPass(s, ctx)[0] == Close(n);
    } else if a[0].Open? {
      FirstCloseWithin(a[1..], a[0].name, [Close(n)] + b);
      DropFront(a, [Close(n)], b, 1);
      assert s[1..] == a[1..] + ([Close(n)] + b);
      var k := FirstClose(s[1..], a[0].name);
      ClosedSuffix(a, k + 2);
      StrayCloseStays(a[k + 2..], n, b, ctx);
      DropFront(a, [Close(n)], b, k + 2);
      HasCloseConcat(if IsOff(ctx, a[0].name) then [] else RenderTokens(s[1..k + 1], ctx), BlockPass(s[k + 2..], ctx));
    } else {
      ClosedSuffix(a, 1);
      StrayCloseStays(a[1..], n, b, ctx);
      assert s[1..] == a[1..] + [Close(n)] + b;
      HasCloseConcat([s[0]], BlockPass(s[1..], ctx));
    }
  }

  lemma {:induction false} VariablePassKeepsClose(ts: seq<Token>, ctx: Context)
    requires HasClose(ts)
    ensures HasClose(VariablePass(ts, ctx))
  {
    var i :| 0 <= i < |ts| && ts[i].Close?;
    VariablePassSplits(ts[..i], ts[i..], ctx);
    assert ts == ts[..i] + ts[i..];
    assert VariablePass(ts[i..], ctx)[0].Close?;
    HasCloseConcat(VariablePass(ts[..i], ctx), VariablePass(ts[i..], ctx));
  }

  /** The stretch up to the first closing tag, and the closed stretch after it. */
  lemma {:induction false} SplitAtFirstClose(p: seq<Token>, n: string) returns (inner: seq<Token>, left: seq<Token>)
    requires Close(n) in p && Closed(p)
    ensures p == inner + [Close(n)] + left && Close(n) !in inner && Closed(left)
  {
    if p[0] == Close(n) {
      inner, left := [], p[1..];
    } else {
      inner, left := SplitAtFirstClose(p[1..], n);
      inner := [p[0]] + inner;
    }
  }

  lemma AroundClose(o: seq<Token>, inner: seq<Token>, c: seq<Token>, left: seq<Token>, r: seq<Token>)
    ensures o + (inner + c + left) + c + r == o + inner + c + (left + c + r)
  {
  }

  lemma BlockPassSelfNested(n: string, body: Template, rest: Template, ctx: Context)
    requires HasBlock(body, n)
    ensures HasClose(BlockPass(Print(Block(n, body, rest)), ctx))
  {
    ClosesPrinted(body, n);
    PrintIsClosed(body);
    var inner, left := SplitAtFirstClose(Print(body), n);
    var after := left + [Close(n)] + Print(rest);
    AroundClose([Open(n)], inner, [Close(n)], left, Print(rest));
    BlockPassAt(Print(Block(n, body, rest)), n, inner, after, ctx);
    StrayCloseStays(left, n, Print(rest), ctx);
    HasCloseConcat(if IsOff(ctx, n) then [] else RenderTokens(inner, ctx), BlockPass(after, ctx));
  }

  /** A live block around a same-named block leaves a closing tag behind. */
  lemma {:induction false} SelfNestingLeavesTag(t: Template, ctx: Context)
    requires !LiveNesting(t, ctx)
    ensures HasClose(BlockPass(Print(t), ctx))
    ensures HasClose(RenderTokens(Print(t), ctx))
  {
    match t {
    case Lit(text, rest) =>
      SelfNestingLeavesTag(rest, ctx);
      assert Print(t)[1..] == Print(rest);
      HasCloseConcat([Plain(text)], BlockPass(Print(rest), ctx));
    case Ref(name, rest) =>
      SelfNestingLeavesTag(rest, ctx);
      assert Print(t)[1..] == Print(rest);
      HasCloseConcat([Var(name)], BlockPass(Print(rest), ctx));
    case Block(n, body, rest) =>
      if HasBlock(body, n) {
        BlockPassSelfNested(n, body, rest, ctx);
      } else {
        BlockPassBlock(n, body, rest, ctx);
        if !LiveNesting(rest, ctx) {
          SelfNestingLeavesTag(rest, ctx);
        } else {
          SelfNestingLeavesTag(body, ctx);
        }
        HasCloseConcat(if IsOff(ctx, n) then [] else RenderTokens(Print(body), ctx), BlockPass(Print(rest), ctx));
      }
    }
    VariablePassKeepsClose(BlockPass(Print(t), ctx), ctx);
  }
}
