/** Texts that the variable substitution leaves alone wherever they stand, and the
    values that are such texts. */
module TemplateValues {
  import opened Common
  import opened TemplateTokens
  import opened TemplateRender

  /** Whatever follows it, the text is copied. */
  ghost predicate Still(x: string, ctx: Context) {
    forall y :: SubstituteVariables(x + y, ctx) == x + SubstituteVariables(y, ctx)
  }

  lemma StillAt(x: string, y: string, ctx: Context)
    requires Still(x, ctx)
    ensures SubstituteVariables(x + y, ctx) == x + SubstituteVariables(y, ctx)
  {
  }

  lemma InertIsStill(x: string, ctx: Context)
    requires Inert(x)
    ensures Still(x, ctx)
  {
    forall y
      ensures SubstituteVariables(x + y, ctx) == x + SubstituteVariables(y, ctx)
    {
      VariablesSkipText(x, y, ctx);
    }
  }

  lemma StillConcat(a: string, b: string, ctx: Context)
    requires Still(a, ctx) && Still(b, ctx)
    ensures Still(a + b, ctx)
  {
    forall y
      ensures SubstituteVariables(a + b + y, ctx) == a + b + SubstituteVariables(y, ctx)
    {
      StillAt(a, b + y, ctx);
      StillAt(b, y, ctx);
      assert a + b + y == a + (b + y);
      assert a + b + SubstituteVariables(y, ctx) == a + (b + SubstituteVariables(y, ctx));
    }
  }

  lemma EmptyIsStill(ctx: Context)
    ensures Still("", ctx)
  {
    forall y
      ensures SubstituteVariables("" + y, ctx) == "" + SubstituteVariables(y, ctx)
    {
      assert "" + y == y;
    }
  }

  // ----- values -----

  /** The text is the beginning of a variable tag, not yet a whole one, and some
      completion of it would be replaced by something else.  Once the name is
      closed by one brace, the tag it can become is fixed. */
  predicate OpenTail(u: string, ctx: Context) {
    u == ['{']
    || (|u| >= 2 && u[0] == '{' && u[1] == '{'
        && var r := WordRun(u[2..]);
           r == |u| - 2
           || (r == |u| - 3 && r > 0 && u[r + 2] == '}' && Value(ctx, u[2..r + 2]) != VarTag(u[2..r + 2])))
  }

  /** A value that substitution keeps: as it stands, and at its end. */
  predicate StableValue(v: string, ctx: Context) {
    SubstituteVariables(v, ctx) == v && forall k :: 0 <= k < |v| ==> !OpenTail(v[k..], ctx)
  }

  /** Every value a template can name is stable. */
  ghost predicate StableContext(ctx: Context) {
    forall n :: n in ctx && IsWord(n) ==> StableValue(ctx[n], ctx)
  }

  ghost predicate InertContext(ctx: Context) {
    forall n :: n in ctx ==> Inert(ctx[n])
  }

  ghost predicate NoOpenTail(v: string, ctx: Context) {
    forall k :: 0 <= k < |v| ==> !OpenTail(v[k..], ctx)
  }

  lemma NoOpenTailTail(v: string, ctx: Context, k: nat)
    requires NoOpenTail(v, ctx) && k <= |v|
    ensures NoOpenTail(v[k..], ctx)
  {
    forall j | 0 <= j < |v[k..]|
      ensures !OpenTail(v[k..][j..], ctx)
    {
      assert v[k..][j..] == v[k + j..];
    }
  }

  lemma {:induction false} WordRunIs(s: string)
    ensures forall i :: 0 <= i < WordRun(s) ==> WordChar(s[i])
    ensures WordRun(s) < |s| ==> !WordChar(s[WordRun(s)])
  {
    if s != "" && WordChar(s[0]) {
      WordRunIs(s[1..]);
    }
  }

  lemma VarAtLonger(v: string, y: string)
    requires VarAt(v).Some?
    ensures VarAt(v + y) == VarAt(v)
  {
    var a := v[2..];
    assert (v + y)[2..] == a + y;
    WordRunLonger(a, y);
    assert (a + y)[..WordRun(a)] == a[..WordRun(a)];
  }

  /** A tag that starts in v and ends behind it: all of v but the last brace of a
      tag that stands for itself. */
  lemma Spanning(v: string, y: string, ctx: Context, w: string)
    requires v != "" && VarAt(v).None? && VarAt(v + y) == Some(w) && !OpenTail(v, ctx)
    ensures IsWord(w) && v == ['{', '{'] + w + ['}'] && y != "" && y[0] == '}' && Value(ctx, w) == VarTag(w)
  {
    assert (v + y)[0] == v[0];
    assert |v| == 1 ==> v == ['{'];
    var a := v[2..];
    assert (v + y)[1] == v[1] && (v + y)[2..] == a + y;
    SpannedName(a, y, w);
    assert v == ['{', '{'] + a;
  }

  /** The same for the name and its closing braces. */
  lemma SpannedName(a: string, y: string, w: string)
    requires NameAt(a).None? && NameAt(a + y) == Some(w) && WordRun(a) < |a|
    ensures IsWord(w) && WordRun(a) == |w| && a == w + ['}'] && y != "" && y[0] == '}'
  {
    var n := WordRun(a);
    WordRunLonger(a, y);
    WordRunIs(a);
    if n + 1 < |a| {
      NameAtInside(a, y);
    }
    HalfName(a, y, n);
  }

  /** With two characters after the word, what follows does not matter. */
  lemma NameAtInside(a: string, y: string)
    requires WordRun(a) + 1 < |a|
    ensures NameAt(a + y) == NameAt(a)
  {
    var n := WordRun(a);
    WordRunLonger(a, y);
    assert (a + y)[..n] == a[..n] && (a + y)[n] == a[n] && (a + y)[n + 1] == a[n + 1];
  }

  lemma HalfName(a: string, y: string, n: nat)
    requires n + 1 == |a| && WordRun(a + y) == n && NameAt(a + y).Some?
    ensures NameAt(a + y).value == a[..n] && a == a[..n] + ['}'] && y != "" && y[0] == '}'
  {
    var u := a + y;
    assert u[..n] == a[..n] && u[n] == a[n] && u[n + 1] == y[0];
  }

  lemma HalfClosedShape(w: string)
    ensures ['{', '{'] + w + ['}'] == ['{'] + (['{'] + (w + ['}']))
    ensures (['{'] + (['{'] + (w + ['}'])))[2..] == w + ['}']
  {
  }

  lemma WordAndBrace(w: string)
    requires IsWord(w)
    ensures Inert(w + ['}']) && NameAt(w + ['}']).None? && (w + ['}'])[0] == w[0] && w[0] != '{'
  {
    WordRunOf(w, ['}']);
    UndoubledIsInert(w + ['}']);
  }

  lemma HalfClosedIsCopied(w: string, ctx: Context)
    requires IsWord(w)
    ensures SubstituteVariables(['{', '{'] + w + ['}'], ctx) == ['{', '{'] + w + ['}']
  {
    var t := w + ['}'];
    HalfClosedShape(w);
    WordAndBrace(w);
    VariablesCopy('{', ['{'] + t, ctx);
    assert (['{'] + t)[1] == t[0];
    VariablesCopy('{', t, ctx);
    VariablesSkipText(t, "", ctx);
    assert t + "" == t;
  }

  lemma TagShape(w: string, z: string)
    ensures ['{', '{'] + w + ['}'] + (['}'] + z) == VarTag(w) + z
  {
  }

  lemma SpanningSplits(w: string, rest: string, ctx: Context)
    requires IsWord(w) && Value(ctx, w) == VarTag(w)
    ensures var v, y := ['{', '{'] + w + ['}'], ['}'] + rest;
      SubstituteVariables(v + y, ctx) == SubstituteVariables(v, ctx) + SubstituteVariables(y, ctx)
  {
    HalfClosedIsCopied(w, ctx);
    VariablesAtTag(w, rest, ctx);
    VariablesCopy('}', rest, ctx);
    TagShape(w, rest);
    TagShape(w, SubstituteVariables(rest, ctx));
  }

  lemma TagSplits(v: string, y: string, n: nat, ctx: Context)
    requires VarAt(v).Some? && n == |VarAt(v).value| + 4
    requires SubstituteVariables(v[n..] + y, ctx) == SubstituteVariables(v[n..], ctx) + SubstituteVariables(y, ctx)
    ensures SubstituteVariables(v + y, ctx) == SubstituteVariables(v, ctx) + SubstituteVariables(y, ctx)
  {
    VarAtLonger(v, y);
    assert (v + y)[n..] == v[n..] + y;
    Regroup(Value(ctx, VarAt(v).value), SubstituteVariables(v[n..], ctx), SubstituteVariables(y, ctx));
  }

  lemma CopySplits(v: string, y: string, ctx: Context)
    requires v != "" && VarAt(v).None? && VarAt(v + y).None?
    requires SubstituteVariables(v[1..] + y, ctx) == SubstituteVariables(v[1..], ctx) + SubstituteVariables(y, ctx)
    ensures SubstituteVariables(v + y, ctx) == SubstituteVariables(v, ctx) + SubstituteVariables(y, ctx)
  {
    assert v + y == [v[0]] + (v[1..] + y) && v == [v[0]] + v[1..];
    VariablesCopy(v[0], v[1..] + y, ctx);
    VariablesCopy(v[0], v[1..], ctx);
    Regroup([v[0]], SubstituteVariables(v[1..], ctx), SubstituteVariables(y, ctx));
  }

  /** Behind a text without an open tail the substitution starts afresh. */
  lemma {:induction false} SubstitutionSplits(v: string, y: string, ctx: Context)
    requires NoOpenTail(v, ctx)
    ensures SubstituteVariables(v + y, ctx) == SubstituteVariables(v, ctx) + SubstituteVariables(y, ctx)
    decreases |v|
  {
    if v == "" {
      assert v + y == y;
    } else if VarAt(v).Some? {
      var n := |VarAt(v).value| + 4;
      NoOpenTailTail(v, ctx, n);
      SubstitutionSplits(v[n..], y, ctx);
      TagSplits(v, y, n, ctx);
    } else if VarAt(v + y).Some? {
      assert v[0..] == v;
      Spanning(v, y, ctx, VarAt(v + y).value);
      assert y == ['}'] + y[1..];
      SpanningSplits(VarAt(v + y).value, y[1..], ctx);
    } else {
      NoOpenTailTail(v, ctx, 1);
      SubstitutionSplits(v[1..], y, ctx);
      CopySplits(v, y, ctx);
    }
  }

  lemma StableIsStill(v: string, ctx: Context)
    requires StableValue(v, ctx)
    ensures Still(v, ctx)
  {
    forall y
      ensures SubstituteVariables(v + y, ctx) == v + SubstituteVariables(y, ctx)
    {
      SubstitutionSplits(v, y, ctx);
    }
  }

  /** Inert values are stable. */
  lemma InertIsStable(v: string, ctx: Context)
    requires Inert(v)
    ensures StableValue(v, ctx)
  {
    VariablesSkipText(v, "", ctx);
    assert v + "" == v;
    forall k | 0 <= k < |v|
      ensures !OpenTail(v[k..], ctx)
    {
      OpenTailBegins(v[k..], ctx);
    }
  }

  lemma OpenTailBegins(u: string, ctx: Context)
    ensures OpenTail(u, ctx) ==> TagBegins(u)
  {
    if |u| > 2 {
      WordRunIs(u[2..]);
    }
  }

  lemma InertContextIsStable(ctx: Context)
    requires InertContext(ctx)
    ensures StableContext(ctx)
  {
    forall n | n in ctx
      ensures StableValue(ctx[n], ctx)
    {
      InertIsStable(ctx[n], ctx);
    }
  }
}
