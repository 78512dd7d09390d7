/** From the planner's JSON to a plan: reading the calls, then the two passes
    that repair their dependencies. */
module ToolPlanParser {
  import opened Common
  import opened ToolPlan
  import opened Text

  /** A parsed JSON node.  `text` is what str() gives for a number or container. */
  datatype Node =
    | Null
    | Flag(b: bool)
    | Words(s: string)
    | Number(text: string, zero: bool)
    | List(items: seq<Node>, text: string)
    | Object(fields: map<string, Node>, text: string)

  predicate Truthy(n: Node) {
    match n
    case Null => false
    case Flag(b) => b
    case Words(s) => s != ""
    case Number(_, zero) => !zero
    case List(items, _) => items != []
    case Object(fields, _) => fields != map[]
  }

  function Str(n: Node): string {
    match n
    case Null => "None"
    case Flag(b) => if b then "True" else "False"
    case Words(s) => s
    case _ => n.text
  }

  /** The first truthy node of the two, as text. */
  function StrOr(fields: map<string, Node>, key: string, default: string): string {
    if key in fields && Truthy(fields[key]) then Str(fields[key]) else default
  }

  function LowerAll(s: string): string {
    seq(|s|, i requires 0 <= i < |s| =>
      if 'A' <= s[i] <= 'Z' then s[i] - 'A' + 'a' else s[i])
  }

  function ParseBool(n: Node): bool {
    if n.Words? then LowerAll(Strip(n.s)) !in {"0", "false", "no", "off"} else Truthy(n)
  }

  // ----- generated step ids -----

  predicate SafeChar(c: char) {
    'a' <= c <= 'z' || 'A' <= c <= 'Z' || '0' <= c <= '9' || c == '_' || c == '-'
  }

  /** Every maximal run of unsafe characters becomes one dash. */
  function Dashed(s: string, inRun: bool): string {
    if s == "" then ""
    else if SafeChar(s[0]) then [s[0]] + Dashed(s[1..], false)
    else (if inRun then "" else "-") + Dashed(s[1..], true)
  }

  function TrimDashes(s: string): string
    decreases |s|
  {
    if s == "" then s
    else if s[0] == '-' then TrimDashes(s[1..])
    else if s[|s| - 1] == '-' then TrimDashes(s[..|s| - 1])
    else s
  }

  function SafeName(tool: string): string {
    var safe := TrimDashes(Dashed(tool, false));
    if safe == "" then "tool" else safe
  }

  function IdTail(tool: string, idx: nat): string {
    Numeral(idx + 1) + "-" + SafeName(tool)
  }

  function StepIdFromTool(tool: string, idx: nat): StepId {
    "llm-" + IdTail(tool, idx)
  }

  lemma {:induction false} DashSplit(a: string, b: string, x: string, y: string)
    requires '-' !in a && '-' !in b && a + "-" + x == b + "-" + y
    ensures a == b && x == y
  {
    var l, r := a + "-" + x, b + "-" + y;
    assert l[0] == (if a == "" then '-' else a[0]);
    assert r[0] == (if b == "" then '-' else b[0]);
    if a == "" || b == "" {
      assert l[1..] == r[1..];
    } else {
      assert l[1..] == a[1..] + "-" + x && r[1..] == b[1..] + "-" + y;
      DashSplit(a[1..], b[1..], x, y);
    }
  }

  /** Generated ids of different calls differ, whatever tools they name. */
  lemma GeneratedIdsDiffer(t1: string, i1: nat, t2: string, i2: nat)
    requires StepIdFromTool(t1, i1) == StepIdFromTool(t2, i2)
    ensures i1 == i2
  {
    SamePrefix("llm-", IdTail(t1, i1), IdTail(t2, i2));
    TailsDiffer(t1, i1, t2, i2);
  }

  lemma TailsDiffer(t1: string, i1: nat, t2: string, i2: nat)
    requires IdTail(t1, i1) == IdTail(t2, i2)
    ensures i1 == i2
  {
    NumeralHasNoDash(i1 + 1);
    NumeralHasNoDash(i2 + 1);
    DashSplit(Numeral(i1 + 1), Numeral(i2 + 1), SafeName(t1), SafeName(t2));
    NumeralInjective(i1 + 1, i2 + 1);
  }

  lemma SamePrefix(p: string, a: string, b: string)
    requires p + a == p + b
    ensures a == b
  {
    assert (p + a)[|p|..] == a && (p + b)[|p|..] == b;
  }

  // ----- reading the calls -----

  /** The stripped, non-empty texts of a list, each at its first occurrence. */
  function StringList(n: Node): seq<string> {
    if n.List? then FirstOccurrences(n.items) else []
  }

  function FirstOccurrences(items: seq<Node>): seq<string> {
    if items == [] then []
    else
      var prev := FirstOccurrences(items[..|items| - 1]);
      var text := Strip(Str(items[|items| - 1]));
      if text == "" || text in prev then prev else prev + [text]
  }

  method ParseStringList(n: Node) returns (result: seq<string>)
    ensures result == StringList(n)
  {
    result := [];
    if !n.List? {
      return;
    }
    var seen: set<string> := {};
    for k := 0 to |n.items|
      invariant result == FirstOccurrences(n.items[..k])
      invariant seen == set x | x in result
    {
      assert n.items[..k + 1][..k] == n.items[..k];
      var text := Strip(Str(n.items[k]));
      if text != "" && text !in seen {
        seen := seen + {text};
        result := result + [text];
      }
    }
    assert n.items[..|n.items|] == n.items;
  }

  /** What a parsed list of names is: no blank name, no name twice, and exactly
      the names the node lists. */
  lemma {:induction false} FirstOccurrencesAt(items: seq<Node>)
    ensures forall i, j :: 0 <= i < j < |FirstOccurrences(items)| ==>
      FirstOccurrences(items)[i] != FirstOccurrences(items)[j]
    ensures forall x :: x in FirstOccurrences(items) <==>
      x != "" && exists k :: 0 <= k < |items| && Strip(Str(items[k])) == x
  {
    if items != [] {
      var q := items[..|items| - 1];
      FirstOccurrencesAt(q);
      var text := Strip(Str(items[|items| - 1]));
      forall x
        ensures x in FirstOccurrences(items) <==>
          x != "" && exists k :: 0 <= k < |items| && Strip(Str(items[k])) == x
      {
        assert x in FirstOccurrences(q) || (x == text && x != "") <==> x in FirstOccurrences(items);
        if k :| 0 <= k < |items| && Strip(Str(items[k])) == x {
          assert k < |q| ==> q[k] == items[k];
        }
        if k :| 0 <= k < |q| && Strip(Str(q[k])) == x {
          assert items[k] == q[k];
        }
      }
    }
  }

  /** The tool an item names. */
  function ItemTool(fields: map<string, Node>): string {
    Strip(StrOr(fields, "tool_name", StrOr(fields, "name", "")))
  }

  /** Item `idx` of the list describes a call if it is an object that names an
      allowed tool. */
  predicate Readable(n: Node, allowed: set<string>) {
    n.Object? && ItemTool(n.fields) in allowed
  }

  /** The item gives its own step id; it may still be blank. */
  predicate OwnsId(fields: map<string, Node>) {
    "step_id" in fields && Truthy(fields["step_id"])
  }

  function ItemId(fields: map<string, Node>, idx: nat): StepId {
    Strip(StrOr(fields, "step_id", StepIdFromTool(ItemTool(fields), idx)))
  }

  function ReadCall(n: Node, idx: nat, allowed: set<string>): Option<Call> {
    if !Readable(n, allowed) then None
    else
      Some(Call(ToolNamed(ItemTool(n.fields)), ItemId(n.fields, idx),
                if "depends_on" in n.fields then StringList(n.fields["depends_on"]) else [],
                if "required" in n.fields then ParseBool(n.fields["required"]) else true))
  }

  function ReadCalls(items: seq<Node>, allowed: set<string>): Plan {
    if items == [] then []
    else
      var rest := ReadCalls(items[..|items| - 1], allowed);
      match ReadCall(items[|items| - 1], |items| - 1, allowed)
      case None => rest
      case Some(c) => rest + [c]
  }

  // ----- the two repair passes -----

  function KeepKnown(deps: seq<StepId>, known: set<StepId>, self: StepId): seq<StepId> {
    if deps == [] then []
    else if deps[0] in known && deps[0] != self then [deps[0]] + KeepKnown(deps[1..], known, self)
    else KeepKnown(deps[1..], known, self)
  }

  function FilterDependencies(calls: Plan): Plan {
    seq(|calls|, i requires 0 <= i < |calls| =>
      calls[i].(deps := KeepKnown(calls[i].deps, Ids(calls), calls[i].id)))
  }

  /** The id of the first normalize call. */
  function NormalizeId(calls: Plan): Option<StepId> {
    if calls == [] then None
    else if calls[0].tool.IncidentNormalize? then Some(calls[0].id)
    else NormalizeId(calls[1..])
  }

  predicate IsChainStep(c: Call, n: StepId) {
    (c.tool.CodeRead? || c.tool.CodeFindCallers?) && c.id != n
  }

  function WithDependency(c: Call, n: StepId): Call {
    if IsChainStep(c, n) && n !in c.deps then c.(deps := c.deps + [n]) else c
  }

  function RequireNormalize(calls: Plan): Plan {
    match NormalizeId(calls)
    case None => calls
    case Some(n) => seq(|calls|, i requires 0 <= i < |calls| => WithDependency(calls[i], n))
  }

  method FilterDependenciesLoop(calls: Plan) returns (filtered: Plan)
    ensures filtered == FilterDependencies(calls)
  {
    var known := Ids(calls);
    filtered := [];
    for i := 0 to |calls|
      invariant |filtered| == i
      invariant forall k :: 0 <= k < i ==> filtered[k] == FilterDependencies(calls)[k]
    {
      filtered := filtered + [calls[i].(deps := KeepKnown(calls[i].deps, known, calls[i].id))];
    }
  }

  method RequireNormalizeLoop(calls: Plan) returns (required: Plan)
    ensures required == RequireNormalize(calls)
  {
    var normalize := NormalizeId(calls);
    if normalize.None? {
      return calls;
    }
    required := [];
    for i := 0 to |calls|
      invariant |required| == i
      invariant forall k :: 0 <= k < i ==> required[k] == RequireNormalize(calls)[k]
    {
      var deps := calls[i].deps;
      if IsChainStep(calls[i], normalize.value) && normalize.value !in deps {
        deps := deps + [normalize.value];
      }
      required := required + [calls[i].(deps := deps)];
    }
  }

  function Repair(calls: Plan): Plan {
    RequireNormalize(FilterDependencies(calls))
  }

  /** The reading loop: items that are no allowed call are passed over. */
  method ReadToolCalls(items: seq<Node>, allowed: set<string>) returns (calls: Plan)
    ensures calls == ReadCalls(items, allowed)
  {
    calls := [];
    for k := 0 to |items|
      invariant calls == ReadCalls(items[..k], allowed)
    {
      ReadCallsStep(items, k, allowed);
      var call := ReadCall(items[k], k, allowed);
      if call.Some? {
        calls := calls + [call.value];
      }
    }
    assert items[..|items|] == items;
  }

  lemma ReadCallsStep(items: seq<Node>, k: nat, allowed: set<string>)
    requires k < |items|
    ensures var q, call := ReadCalls(items[..k], allowed), ReadCall(items[k], k, allowed);
      ReadCalls(items[..k + 1], allowed) == if call.Some? then q + [call.value] else q
  {
    assert items[..k + 1][..k] == items[..k];
  }

  /** The whole parse, from the node of the answer. */
  method ParseToolPlan(answer: Option<Node>, allowed: set<string>, maxToolCalls: int) returns (plan: Option<Plan>)
    ensures plan.Some? <==>
      && answer.Some? && answer.value.Object? && "tool_calls" in answer.value.fields
      && answer.value.fields["tool_calls"].List?
      && ReadCalls(Considered(answer.value.fields["tool_calls"].items, maxToolCalls), allowed) != []
    ensures plan.Some? ==>
      plan.value == Repair(ReadCalls(Considered(answer.value.fields["tool_calls"].items, maxToolCalls), allowed))
  {
    if answer.None? || !answer.value.Object? || "tool_calls" !in answer.value.fields
       || !answer.value.fields["tool_calls"].List? {
      return None;
    }
    var calls := ReadToolCalls(Considered(answer.value.fields["tool_calls"].items, maxToolCalls), allowed);
    if calls == [] {
      return None;
    }
    calls := FilterDependenciesLoop(calls);
    calls := RequireNormalizeLoop(calls);
    plan := Some(calls);
  }

  function Considered(items: seq<Node>, max: int): seq<Node> {
    if max <= 0 then [] else if max < |items| then items[..max] else items
  }
}
