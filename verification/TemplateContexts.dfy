/** Which contexts render templates right, when values may hold braces. */
module TemplateContexts {
  import opened Common
  import opened Text
  import opened TemplateTokens
  import opened TemplateRender
  import opened TemplateValues
  import opened TemplateTheorems

  // ----- the text after the first pass -----

  /** The printed text with every block replaced by what it renders to. */
  function Filled(t: Template, ctx: Context): string {
    match t
    case End => ""
    case Lit(text, rest) => text + Filled(rest, ctx)
    case Ref(name, rest) => VarTag(name) + Filled(rest, ctx)
    case Block(name, body, rest) =>
      (if IsOff(ctx, name) then "" else RenderMessageTemplate(PrintText(body), ctx)) + Filled(rest, ctx)
  }

  lemma PrintTextBlock(n: string, body: Template, rest: Template)
    ensures PrintText(Block(n, body, rest)) == OpenTag(n) + (PrintText(body) + CloseTag(n) + PrintText(rest))
  {
    var b, r := Print(body), Print(rest);
    assert Print(Block(n, body, rest)) == [Open(n)] + (b + ([Close(n)] + r));
    FlatCons(Open(n), b + ([Close(n)] + r));
    FlatCut(b, n, r);
  }

  lemma BlockTokens(n: string, body: Template, rest: Template)
    requires GoodTemplate(Block(n, body, rest)) && !HasBlock(body, n)
    ensures var b, ts := Print(body), Print(body) + ([Close(n)] + Print(rest));
      Good(ts) && ts[..|b|] == b && FirstClose(ts, n) == |b|
  {
    var b, r := Print(body), Print(rest);
    ClosesPrinted(body, n);
    FirstCloseAfter(b, n, r);
    Regroup(b, [Close(n)], r);
    TakeFront(b, [Close(n)] + r);
    PrintIsGood(body);
    PrintIsGood(rest);
    GoodConcat([Close(n)], r);
    GoodConcat(b, [Close(n)] + r);
  }

  lemma GoodConcat(a: seq<Token>, b: seq<Token>)
    requires Good(a) && Good(b)
    ensures Good(a + b)
  {
    forall i | 0 <= i < |a + b|
      ensures GoodToken((a + b)[i])
    {
      assert i < |a| ==> GoodToken(a[i]);
      assert i >= |a| ==> GoodToken(b[i - |a|]);
    }
  }

  lemma ClosesOwnBlock(n: string, body: Template, rest: Template)
    requires GoodTemplate(Block(n, body, rest)) && !HasBlock(body, n)
    ensures FindTag(PrintText(body) + CloseTag(n) + PrintText(rest), CloseTag(n)) == |PrintText(body)|
  {
    var b, r := Print(body), Print(rest);
    BlockTokens(n, body, rest);
    FindFlat(b + ([Close(n)] + r), n);
    FlatCut(b, n, r);
  }

  lemma {:induction false} BlocksPrinted(t: Template, ctx: Context)
    requires GoodTemplate(t) && LiveNesting(t, ctx)
    ensures SubstituteBlocks(PrintText(t), ctx) == Filled(t, ctx)
  {
    match t
    case End =>
    case Lit(text, rest) =>
      BlocksPrinted(rest, ctx);
      FlatCons(Plain(text), Print(rest));
      BlocksSkipText(text, PrintText(rest), ctx);
    case Ref(name, rest) =>
      BlocksPrinted(rest, ctx);
      FlatCons(Var(name), Print(rest));
      BlocksSkipToken(Var(name), PrintText(rest), ctx);
    case Block(n, body, rest) =>
      BlocksPrinted(rest, ctx);
      PrintTextBlock(n, body, rest);
      ClosesOwnBlock(n, body, rest);
      BlocksAtTag(n, PrintText(body), PrintText(rest), ctx);
  }

  // ----- right rendering -----

  /** Every value a live part of the template shows is stable. */
  predicate ShowsStable(t: Template, ctx: Context) {
    match t
    case End => true
    case Lit(_, rest) => ShowsStable(rest, ctx)
    case Ref(name, rest) => StableValue(Value(ctx, name), ctx) && ShowsStable(rest, ctx)
    case Block(name, body, rest) => (IsOff(ctx, name) || ShowsStable(body, ctx)) && ShowsStable(rest, ctx)
  }

  /** The same, inside blocks only. */
  predicate BlocksShowStable(t: Template, ctx: Context) {
    match t
    case End => true
    case Lit(_, rest) => BlocksShowStable(rest, ctx)
    case Ref(_, rest) => BlocksShowStable(rest, ctx)
    case Block(name, body, rest) => (IsOff(ctx, name) || ShowsStable(body, ctx)) && BlocksShowStable(rest, ctx)
  }

  lemma {:induction false} ShownInsideToo(t: Template, ctx: Context)
    requires ShowsStable(t, ctx)
    ensures BlocksShowStable(t, ctx)
  {
    match t
    case End =>
    case Lit(_, rest) => ShownInsideToo(rest, ctx);
    case Ref(_, rest) => ShownInsideToo(rest, ctx);
    case Block(_, _, rest) => ShownInsideToo(rest, ctx);
  }

  lemma {:induction false} EvalIsStill(t: Template, ctx: Context)
    requires GoodTemplate(t) && ShowsStable(t, ctx)
    ensures Still(Eval(t, ctx), ctx)
  {
    match t
    case End =>
      EmptyIsStill(ctx);
    case Lit(text, rest) =>
      EvalIsStill(rest, ctx);
      InertIsStill(text, ctx);
      StillConcat(text, Eval(rest, ctx), ctx);
    case Ref(name, rest) =>
      EvalIsStill(rest, ctx);
      StableIsStill(Value(ctx, name), ctx);
      StillConcat(Value(ctx, name), Eval(rest, ctx), ctx);
    case Block(n, body, rest) =>
      EvalIsStill(rest, ctx);
      if IsOff(ctx, n) {
        EmptyIsStill(ctx);
      } else {
        EvalIsStill(body, ctx);
      }
      StillConcat(if IsOff(ctx, n) then "" else Eval(body, ctx), Eval(rest, ctx), ctx);
  }

  /** A template renders right when no block outside a switched-off block contains
      a block of its own name and every value shown inside a live block is stable.
      Values shown outside blocks may be anything. */
  lemma {:induction false} RendersRight(t: Template, ctx: Context)
    requires GoodTemplate(t) && LiveNesting(t, ctx) && BlocksShowStable(t, ctx)
    ensures RenderMessageTemplate(PrintText(t), ctx) == Eval(t, ctx)
    decreases t, 1
  {
    BlocksPrinted(t, ctx);
    FilledSubstitutes(t, ctx);
  }

  lemma {:induction false} FilledSubstitutes(t: Template, ctx: Context)
    requires GoodTemplate(t) && LiveNesting(t, ctx) && BlocksShowStable(t, ctx)
    ensures SubstituteVariables(Filled(t, ctx), ctx) == Eval(t, ctx)
    decreases t, 0
  {
    match t
    case End =>
    case Lit(text, rest) =>
      FilledSubstitutes(rest, ctx);
      VariablesSkipText(text, Filled(rest, ctx), ctx);
    case Ref(name, rest) =>
      FilledSubstitutes(rest, ctx);
      VariablesAtTag(name, Filled(rest, ctx), ctx);
    case Block(n, body, rest) =>
      FilledSubstitutes(rest, ctx);
      if IsOff(ctx, n) {
        assert "" + Filled(rest, ctx) == Filled(rest, ctx);
      } else {
        ShownInsideToo(body, ctx);
        RendersRight(body, ctx);
        BlockStays(n, body, rest, ctx);
      }
  }

  /** A rendered body that is still passes the second substitution unchanged. */
  lemma BlockStays(n: string, body: Template, rest: Template, ctx: Context)
    requires GoodTemplate(Block(n, body, rest)) && !IsOff(ctx, n) && ShowsStable(body, ctx)
    requires LiveNesting(Block(n, body, rest), ctx)
    requires RenderMessageTemplate(PrintText(body), ctx) == Eval(body, ctx)
    requires SubstituteVariables(Filled(rest, ctx), ctx) == Eval(rest, ctx)
    ensures SubstituteVariables(Filled(Block(n, body, rest), ctx), ctx) == Eval(Block(n, body, rest), ctx)
  {
    EvalIsStill(body, ctx);
    StillAt(Eval(body, ctx), Filled(rest, ctx), ctx);
  }

  predicate BlockFree(t: Template) {
    match t
    case End => true
    case Lit(_, rest) => BlockFree(rest)
    case Ref(_, rest) => BlockFree(rest)
    case Block(_, _, _) => false
  }

  /** A template without blocks renders right under every context. */
  lemma {:induction false} BlockFreeRendersRight(t: Template, ctx: Context)
    requires GoodTemplate(t) && BlockFree(t)
    ensures RenderMessageTemplate(PrintText(t), ctx) == Eval(t, ctx)
  {
    BlockFreeConditions(t, ctx);
    RendersRight(t, ctx);
  }

  lemma {:induction false} BlockFreeConditions(t: Template, ctx: Context)
    requires BlockFree(t)
    ensures LiveNesting(t, ctx) && BlocksShowStable(t, ctx)
  {
    match t
    case End =>
    case Lit(_, rest) => BlockFreeConditions(rest, ctx);
    case Ref(_, rest) => BlockFreeConditions(rest, ctx);
    case Block(_, _, _) =>
  }

  // ----- which contexts are safe for every template -----

  lemma {:induction false} StableContextShowsStable(t: Template, ctx: Context)
    requires GoodTemplate(t) && StableContext(ctx)
    ensures ShowsStable(t, ctx)
  {
    match t
    case End =>
    case Lit(_, rest) => StableContextShowsStable(rest, ctx);
    case Ref(name, rest) =>
      StableContextShowsStable(rest, ctx);
      if name !in ctx {
        assert StableValue("", ctx);
      }
    case Block(_, body, rest) =>
      StableContextShowsStable(body, ctx);
      StableContextShowsStable(rest, ctx);
  }

  /** The context renders right every template in which no block contains a block
      of its own name. */
  ghost predicate SafeContext(ctx: Context) {
    forall t :: GoodTemplate(t) && NoSelfNesting(t) ==> RenderMessageTemplate(PrintText(t), ctx) == Eval(t, ctx)
  }

  lemma StableContextIsSafe(ctx: Context)
    requires StableContext(ctx)
    ensures SafeContext(ctx)
  {
    forall t | GoodTemplate(t) && NoSelfNesting(t)
      ensures RenderMessageTemplate(PrintText(t), ctx) == Eval(t, ctx)
    {
      NoSelfNestingIsLive(t, ctx);
      StableContextShowsStable(t, ctx);
      ShownInsideToo(t, ctx);
      RendersRight(t, ctx);
    }
  }

  /** The probe: a block that shows its own variable, followed by some text. */
  function Probe(n: string, text: string): Template {
    Block(n, Ref(n, Lit(text, End)), End)
  }

  lemma ProbeShape(n: string, text: string, ctx: Context)
    requires IsWord(n) && Inert(text)
    ensures var body := Ref(n, Lit(text, End));
      && GoodTemplate(body) && BlockFree(body) && !HasBlock(body, n) && NoSelfNesting(body) && LiveNesting(body, ctx)
      && Eval(body, ctx) == Value(ctx, n) + text
  {
    LitShape(n, Lit(text, End), ctx);
  }

  lemma LitShape(n: string, tail: Template, ctx: Context)
    requires tail.Lit? && tail.rest.End?
    ensures BlockFree(tail) && !HasBlock(tail, n) && NoSelfNesting(tail) && LiveNesting(tail, ctx)
    ensures Eval(tail, ctx) == tail.text && (Inert(tail.text) ==> GoodTemplate(tail))
  {
    assert Eval(tail.rest, ctx) == "" && tail.text + "" == tail.text;
  }

  lemma ProbeRenders(n: string, text: string, ctx: Context)
    requires IsWord(n) && Inert(text) && !IsOff(ctx, n)
    ensures GoodTemplate(Probe(n, text)) && NoSelfNesting(Probe(n, text))
    ensures Eval(Probe(n, text), ctx) == Value(ctx, n) + text
    ensures RenderMessageTemplate(PrintText(Probe(n, text)), ctx) == SubstituteVariables(Value(ctx, n) + text, ctx)
  {
    var body := Ref(n, Lit(text, End));
    var shown := Value(ctx, n) + text;
    ProbeShape(n, text, ctx);
    BlockFreeRendersRight(body, ctx);
    assert LiveNesting(Block(n, body, End), ctx) && GoodTemplate(Block(n, body, End));
    BlocksPrinted(Block(n, body, End), ctx);
    assert shown + "" == shown;
  }

  // ----- an unstable value spoils a probe -----

  /** A tag's own braces keep what stands before them apart. */
  lemma NothingSpansInto(p: string, y: string)
    requires p != "" && VarAt(p).None? && y != "" && y[0] == '{' && (|y| == 1 || y[1] == '{')
    ensures VarAt(p + y).None?
  {
    var u := p + y;
    assert u[0] == p[0];
    if |p| == 1 {
      assert |y| > 1 ==> u[2] == y[1];
      assert WordRun(u[2..]) == 0;
    } else {
      var a := p[2..];
      assert u[1] == p[1] && u[2..] == a + y;
      if p[0] == '{' && p[1] == '{' {
        NoNameInto(a, y);
      }
    }
  }

  lemma NoNameInto(a: string, y: string)
    requires NameAt(a).None? && y != "" && y[0] == '{'
    ensures NameAt(a + y).None?
  {
    var n := WordRun(a);
    if n + 1 < |a| {
      NameAtInside(a, y);
    } else if n < |a| {
      WordRunLonger(a, y);
      assert (a + y)[n + 1] == '{';
    } else {
      WordRunIs(a);
      WordRunOf(a, y);
      assert (a + y)[n] == '{';
    }
  }

  lemma {:induction false} SplitsBeforeTag(p: string, y: string, ctx: Context)
    requires y != "" && y[0] == '{' && (|y| == 1 || y[1] == '{')
    ensures SubstituteVariables(p + y, ctx) == SubstituteVariables(p, ctx) + SubstituteVariables(y, ctx)
    decreases |p|
  {
    if p == "" {
      assert p + y == y;
    } else if VarAt(p).Some? {
      var n := |VarAt(p).value| + 4;
      SplitsBeforeTag(p[n..], y, ctx);
      TagSplits(p, y, n, ctx);
    } else {
      NothingSpansInto(p, y);
      SplitsBeforeTag(p[1..], y, ctx);
      CopySplits(p, y, ctx);
    }
  }

  function Xs(n: nat): string {
    seq(n, _ => 'x')
  }

  /** A word that completes w to a name the context does not have. */
  lemma FreshEnding(w: string, ctx: Context) returns (z: string)
    requires forall i :: 0 <= i < |w| ==> WordChar(w[i])
    ensures IsWord(z) && IsWord(w + z) && Value(ctx, w + z) != VarTag(w + z)
  {
    var n := LongerThanAll(ctx.Keys);
    z := Xs(n + 1);
    assert |w + z| > n;
    assert |VarTag(w + z)| >= 4;
  }

  lemma WordText(z: string)
    requires IsWord(z)
    ensures Inert(z + ['}', '}']) && Inert(['{'] + z + ['}', '}'])
  {
    UndoubledIsInert(z + ['}', '}']);
    UndoubledIsInert(['{'] + z + ['}', '}']);
  }

  lemma OneBraceIsCopied(ctx: Context)
    ensures SubstituteVariables(['{'], ctx) == ['{']
  {
    VariablesCopy('{', "", ctx);
    assert ['{'] + "" == ['{'];
  }

  /** An open tail is itself copied, and can be completed to a tag that is not. */
  lemma Completion(u: string, ctx: Context) returns (text: string, name: string)
    requires OpenTail(u, ctx)
    ensures Inert(text) && IsWord(name) && u + text == VarTag(name) && Value(ctx, name) != VarTag(name)
    ensures SubstituteVariables(u, ctx) == u
  {
    if u == ['{'] {
      text, name := BraceCompletion(ctx);
    } else if WordRun(u[2..]) == |u| - 2 {
      text, name := NameCompletion(u[2..], ctx);
      assert u == ['{', '{'] + u[2..];
    } else {
      name := HalfClosedName(u);
      text := ['}'];
      HalfClosedIsCopied(name, ctx);
    }
  }

  lemma BraceCompletion(ctx: Context) returns (text: string, name: string)
    ensures Inert(text) && IsWord(name) && ['{'] + text == VarTag(name) && Value(ctx, name) != VarTag(name)
    ensures SubstituteVariables(['{'], ctx) == ['{']
  {
    var z := FreshEnding("", ctx);
    assert "" + z == z;
    WordText(z);
    OneBraceIsCopied(ctx);
    OneMoreBrace(z);
    text, name := ['{'] + z + ['}', '}'], z;
  }

  lemma OneMoreBrace(z: string)
    ensures ['{'] + (['{'] + z + ['}', '}']) == VarTag(z)
  {
  }

  lemma HalfClosedName(u: string) returns (name: string)
    requires |u| > 3 && u[0] == '{' && u[1] == '{' && WordRun(u[2..]) == |u| - 3 && u[|u| - 1] == '}'
    ensures IsWord(name) && name == u[2..|u| - 1] && u == ['{', '{'] + name + ['}'] && u + ['}'] == VarTag(name)
  {
    name := u[2..|u| - 1];
    WordRunIs(u[2..]);
    forall i | 0 <= i < |name|
      ensures WordChar(name[i])
    {
      assert name[i] == u[2..][i];
    }
  }

  lemma NameCompletion(w: string, ctx: Context) returns (text: string, name: string)
    requires WordRun(w) == |w|
    ensures Inert(text) && IsWord(name) && ['{', '{'] + w + text == VarTag(name) && Value(ctx, name) != VarTag(name)
    ensures SubstituteVariables(['{', '{'] + w, ctx) == ['{', '{'] + w
  {
    WordRunIs(w);
    var z := FreshEnding(w, ctx);
    WordText(z);
    OpenNameIsCopied(w, ctx);
    text, name := z + ['}', '}'], w + z;
  }

  lemma OpenNameIsCopied(w: string, ctx: Context)
    requires forall i :: 0 <= i < |w| ==> WordChar(w[i])
    ensures SubstituteVariables(['{', '{'] + w, ctx) == ['{', '{'] + w
  {
    var v := ['{'] + w;
    assert ['{', '{'] + w == ['{'] + v;
    assert (['{'] + v)[2..] == w && w + "" == w;
    WordRunOf(w, "");
    VariablesCopy('{', v, ctx);
    assert w != "" ==> v[1] == w[0];
    VariablesCopy('{', w, ctx);
    VariablesSkipText(w, "", ctx);
  }

  /** After a value with an open tail some inert text makes the substitution
      change the two together. */
  lemma OpenTailSpoils(v: string, k: nat, ctx: Context) returns (text: string)
    requires SubstituteVariables(v, ctx) == v && k < |v| && OpenTail(v[k..], ctx)
    ensures Inert(text) && SubstituteVariables(v + text, ctx) != v + text
  {
    var p, u := v[..k], v[k..];
    var name;
    text, name := Completion(u, ctx);
    CutAndComplete(v, k, text);
    SplitsBeforeTag(p, u, ctx);
    SameFront(SubstituteVariables(p, ctx), p, u);
    TagAtEndChanges(p, name, ctx);
  }

  lemma CutAndComplete(v: string, k: nat, text: string)
    requires k <= |v|
    ensures v == v[..k] + v[k..] && v + text == v[..k] + (v[k..] + text)
  {
  }

  lemma TagAtEndChanges(p: string, name: string, ctx: Context)
    requires IsWord(name) && SubstituteVariables(p, ctx) == p && Value(ctx, name) != VarTag(name)
    ensures SubstituteVariables(p + VarTag(name), ctx) != p + VarTag(name)
  {
    SplitsBeforeTag(p, VarTag(name), ctx);
    VariablesAtTag(name, "", ctx);
    assert VarTag(name) + "" == VarTag(name) && Value(ctx, name) + "" == Value(ctx, name);
    if p + Value(ctx, name) == p + VarTag(name) {
      SameBack(p, Value(ctx, name), VarTag(name));
    }
  }

  lemma SameFront(a: string, b: string, c: string)
    requires a + c == b + c
    ensures a == b
  {
    assert |a| == |b|;
    assert (a + c)[..|a|] == a && (b + c)[..|b|] == b;
  }

  lemma SameBack(a: string, b: string, c: string)
    requires a + b == a + c
    ensures b == c
  {
    assert (a + b)[|a|..] == b && (a + c)[|a|..] == c;
  }

  lemma BlankIsStable(v: string, ctx: Context)
    requires Strip(v) == ""
    ensures StableValue(v, ctx)
  {
    StripEnds(v);
    assert forall i :: 0 <= i < |v| ==> v[i] != '{';
    InertIsStable(v, ctx);
  }

  lemma UnstableIsSpoiled(ctx: Context, n: string)
    requires IsWord(n) && n in ctx && !StableValue(ctx[n], ctx)
    ensures !SafeContext(ctx)
  {
    var v := ctx[n];
    if IsOff(ctx, n) {
      BlankIsStable(v, ctx);
    }
    var text := "";
    assert v + "" == v;
    if SubstituteVariables(v, ctx) == v {
      var k :| 0 <= k < |v| && OpenTail(v[k..], ctx);
      text := OpenTailSpoils(v, k, ctx);
    }
    ProbeRenders(n, text, ctx);
  }

  /** A context renders right every template in which no block contains a block of
      its own name exactly when each of its values is kept by the substitution
      and ends in no unfinished tag that some text could complete to a changing
      one.  Two values cannot join into a tag then either. */
  lemma SafeContextExactly(ctx: Context)
    ensures SafeContext(ctx) <==> StableContext(ctx)
  {
    if StableContext(ctx) {
      StableContextIsSafe(ctx);
    } else {
      var n :| n in ctx && IsWord(n) && !StableValue(ctx[n], ctx);
      UnstableIsSpoiled(ctx, n);
    }
  }

  /** Every safe context renders the template right. */
  ghost predicate SafeTemplate(t: Template) {
    forall ctx: Context :: SafeContext(ctx) ==> RenderMessageTemplate(PrintText(t), ctx) == Eval(t, ctx)
  }

  /** The other way round: the templates every safe context renders right are
      exactly those in which no block contains a block of its own name. */
  lemma SafeTemplateExactly(t: Template)
    requires GoodTemplate(t)
    ensures SafeTemplate(t) <==> NoSelfNesting(t)
  {
    var ctx := AllOn(BlockNames(t));
    InertContextIsStable(ctx);
    SafeContextExactly(ctx);
    RenderIsEvalExactly(t, ctx);
    AllOnIsLive(t, BlockNames(t));
  }
}
