/** Which plans the parser can yield. */
module ParserRange {
  import opened Common
  import opened ToolPlan
  import opened Text
  import opened ToolPlanParser
  import opened ParserTheorems

  function ToolName(t: Tool): string {
    match t
    case IncidentNormalize => "incident.normalize"
    case CodeRead => "code.read"
    case CodeFindCallers => "code.find_callers"
    case NotifySend => "notify.send"
    case OtherTool(name) => name
  }

  predicate Stripped(s: string) {
    Strip(s) == s
  }

  /** Stripped, non-blank and no name twice. */
  ghost predicate NameList(deps: seq<StepId>) {
    && (forall i :: 0 <= i < |deps| ==> deps[i] != "" && Stripped(deps[i]))
    && forall i, j :: 0 <= i < j < |deps| ==> deps[i] != deps[j]
  }

  /** A call as reading can give it: an allowed tool and stripped texts. */
  ghost predicate AsRead(c: Call, allowed: set<string>) {
    && c.tool == ToolNamed(ToolName(c.tool)) && ToolName(c.tool) in allowed && Stripped(ToolName(c.tool))
    && Stripped(c.id) && NameList(c.deps)
  }

  // ----- what is read is as read -----

  lemma NameOfNamed(name: string)
    ensures ToolName(ToolNamed(name)) == name
  {
  }

  lemma {:induction false} NamesListed(items: seq<Node>)
    ensures NameList(FirstOccurrences(items))
  {
    FirstOccurrencesAt(items);
    var r := FirstOccurrences(items);
    forall i | 0 <= i < |r|
      ensures r[i] != "" && Stripped(r[i])
    {
      assert r[i] in r;
      var k :| 0 <= k < |items| && Strip(Str(items[k])) == r[i];
      StripEnds(Str(items[k]));
    }
  }

  lemma ReadIsAsRead(n: Node, idx: nat, allowed: set<string>)
    requires ReadCall(n, idx, allowed).Some?
    ensures AsRead(ReadCall(n, idx, allowed).value, allowed)
  {
    StripEnds(StrOr(n.fields, "tool_name", StrOr(n.fields, "name", "")));
    StripEnds(StrOr(n.fields, "step_id", StepIdFromTool(ItemTool(n.fields), idx)));
    NameOfNamed(ItemTool(n.fields));
    if "depends_on" in n.fields && n.fields["depends_on"].List? {
      NamesListed(n.fields["depends_on"].items);
    }
  }

  lemma {:induction false} ReadsAsRead(items: seq<Node>, allowed: set<string>, c: Call)
    requires c in ReadCalls(items, allowed)
    ensures AsRead(c, allowed)
  {
    var k := |items| - 1;
    var last := ReadCall(items[k], k, allowed);
    if last == Some(c) {
      ReadIsAsRead(items[k], k, allowed);
    } else {
      ReadsAsRead(items[..k], allowed, c);
    }
  }

  // ----- and every such call can be read -----

  function Texts(xs: seq<string>): seq<Node> {
    seq(|xs|, i requires 0 <= i < |xs| => Words(xs[i]))
  }

  /** An item that reads as the call.  A blank step id is given as a space. */
  function Item(c: Call): Node {
    Object(map["step_id" := Words(if c.id == "" then " " else c.id), "tool_name" := Words(ToolName(c.tool)),
               "depends_on" := List(Texts(c.deps), ""), "required" := Flag(c.required)], "")
  }

  function Answer(calls: Plan): seq<Node> {
    if calls == [] then [] else Answer(calls[..|calls| - 1]) + [Item(calls[|calls| - 1])]
  }

  lemma {:induction false} NamesReadBack(deps: seq<StepId>)
    requires NameList(deps)
    ensures FirstOccurrences(Texts(deps)) == deps
  {
    if deps != [] {
      var k := |deps| - 1;
      NamesReadBack(deps[..k]);
      assert Texts(deps)[..k] == Texts(deps[..k]);
      assert deps == deps[..k] + [deps[k]];
    }
  }

  lemma SpaceIsBlank()
    ensures Strip(" ") == ""
  {
    StripEnds(" ");
  }

  lemma ItemReads(c: Call, idx: nat, allowed: set<string>)
    requires AsRead(c, allowed)
    ensures ReadCall(Item(c), idx, allowed) == Some(c)
  {
    ItemFields(c);
    SpaceIsBlank();
    assert ItemId(Item(c).fields, idx) == c.id;
    NamesReadBack(c.deps);
  }

  lemma ItemFields(c: Call)
    ensures var fields := Item(c).fields;
      && "step_id" in fields && fields["step_id"] == Words(if c.id == "" then " " else c.id)
      && "depends_on" in fields && fields["depends_on"] == List(Texts(c.deps), "")
      && "required" in fields && fields["required"] == Flag(c.required)
      && StrOr(fields, "tool_name", StrOr(fields, "name", "")) == ToolName(c.tool)
  {
    var fields := Item(c).fields;
    assert |"step_id"| == 7 && |"tool_name"| == 9 && |"depends_on"| == 10 && |"required"| == 8 && |"name"| == 4;
    assert fields["tool_name"] == Words(ToolName(c.tool)) && "name" !in fields;
  }

  lemma {:induction false} AnswerLength(calls: Plan)
    ensures |Answer(calls)| == |calls|
  {
    if calls != [] {
      AnswerLength(calls[..|calls| - 1]);
    }
  }

  lemma ReadCallsSnoc(items: seq<Node>, n: Node, c: Call, allowed: set<string>)
    requires ReadCall(n, |items|, allowed) == Some(c)
    ensures ReadCalls(items + [n], allowed) == ReadCalls(items, allowed) + [c]
  {
    assert (items + [n])[..|items|] == items;
  }

  lemma ReadOneMore(q: Plan, c: Call, allowed: set<string>)
    requires AsRead(c, allowed)
    ensures ReadCalls(Answer(q) + [Item(c)], allowed) == ReadCalls(Answer(q), allowed) + [c]
  {
    AnswerLength(q);
    ItemReads(c, |q|, allowed);
    ReadCallsSnoc(Answer(q), Item(c), c, allowed);
  }

  ghost predicate AllAsRead(calls: Plan, allowed: set<string>) {
    forall c :: c in calls ==> AsRead(c, allowed)
  }

  lemma SplitAsRead(calls: Plan, allowed: set<string>)
    requires calls != [] && AllAsRead(calls, allowed)
    ensures AllAsRead(calls[..|calls| - 1], allowed) && AsRead(calls[|calls| - 1], allowed)
  {
  }

  lemma {:induction false} AnswerReads(calls: Plan, allowed: set<string>)
    requires AllAsRead(calls, allowed)
    ensures ReadCalls(Answer(calls), allowed) == calls
  {
    if calls != [] {
      var q := calls[..|calls| - 1];
      SplitAsRead(calls, allowed);
      AnswerReads(q, allowed);
      ReadOneMore(q, calls[|calls| - 1], allowed);
      SplitLast(calls);
    }
  }

  lemma SplitLast(calls: Plan)
    requires calls != []
    ensures calls == calls[..|calls| - 1] + [calls[|calls| - 1]]
  {
  }

  /** The lists of calls that some answer reads as: allowed tools, stripped texts,
      and dependency lists without blanks or repetitions; nothing else is needed. */
  lemma ReadableExactly(calls: Plan, allowed: set<string>)
    ensures (exists items: seq<Node> :: ReadCalls(items, allowed) == calls) <==> AllAsRead(calls, allowed)
  {
    if items: seq<Node> :| ReadCalls(items, allowed) == calls {
      forall c | c in calls
        ensures AsRead(c, allowed)
      {
        ReadsAsRead(items, allowed, c);
      }
    }
    if AllAsRead(calls, allowed) {
      AnswerReads(calls, allowed);
    }
  }

  // ----- whole plans -----

  ghost predicate NoBlankId(calls: Plan) {
    forall c :: c in calls ==> c.id != ""
  }

  lemma {:induction false} KeptNames(deps: seq<StepId>, known: set<StepId>, self: StepId)
    requires NameList(deps)
    ensures NameList(KeepKnown(deps, known, self))
  {
    if deps != [] {
      var rest := KeepKnown(deps[1..], known, self);
      KeptNames(deps[1..], known, self);
      forall i | 0 <= i < |rest|
        ensures rest[i] != deps[0]
      {
        KeepKnownAt(deps[1..], known, self, rest[i]);
        assert rest[i] in rest;
        var j :| 0 <= j < |deps| - 1 && deps[1..][j] == rest[i];
        assert deps[j + 1] != deps[0];
      }
    }
  }

  lemma RepairIsAsRead(calls: Plan, allowed: set<string>, i: nat)
    requires (forall c :: c in calls ==> AsRead(c, allowed)) && NoBlankId(calls)
    requires i < |calls|
    ensures |Repair(calls)| == |calls| && AsRead(Repair(calls)[i], allowed)
  {
    var c := calls[i];
    assert c in calls;
    RepairKeepsShape(calls);
    KeptNames(c.deps, Ids(calls), c.id);
    if NormalizeId(calls).Some? {
      NormalizeIsName(calls, allowed);
      AppendName(KeepKnown(c.deps, Ids(calls), c.id), NormalizeId(calls).value);
    }
  }

  lemma NormalizeIsName(calls: Plan, allowed: set<string>)
    requires (forall c :: c in calls ==> AsRead(c, allowed)) && NoBlankId(calls)
    requires NormalizeId(calls).Some?
    ensures NormalizeId(calls).value != "" && Stripped(NormalizeId(calls).value)
  {
    NormalizeIdAt(calls);
    var n :| n in calls && n.id == NormalizeId(calls).value;
    assert AsRead(n, allowed);
  }

  lemma AppendName(deps: seq<StepId>, n: StepId)
    requires NameList(deps) && n != "" && Stripped(n)
    ensures n !in deps ==> NameList(deps + [n])
  {
  }

  lemma NoBlankBothWays(calls: Plan)
    ensures NoBlankId(Repair(calls)) <==> NoBlankId(calls)
  {
    RepairKeepsShape(calls);
    assert NoBlankId(calls) <==> "" !in Ids(calls);
    assert NoBlankId(Repair(calls)) <==> "" !in Ids(Repair(calls));
  }

  /** Some answer parses to the plan. */
  ghost predicate Receivable(plan: Plan, allowed: set<string>, maxToolCalls: int) {
    exists items: seq<Node> ::
      var calls := ReadCalls(Considered(items, maxToolCalls), allowed); calls != [] && Repair(calls) == plan
  }

  lemma ReceivedIsAsRead(items: seq<Node>, allowed: set<string>, calls: Plan, plan: Plan)
    requires calls == ReadCalls(items, allowed) && NoBlankId(calls) && plan == Repair(calls)
    ensures AllAsRead(plan, allowed)
  {
    forall c | c in calls
      ensures AsRead(c, allowed)
    {
      ReadsAsRead(items, allowed, c);
    }
    RepairKeepsShape(calls);
    forall c | c in plan
      ensures AsRead(c, allowed)
    {
      var i :| 0 <= i < |plan| && plan[i] == c;
      RepairIsAsRead(calls, allowed, i);
    }
  }

  lemma {:induction false} ReadsAtMost(items: seq<Node>, allowed: set<string>)
    ensures |ReadCalls(items, allowed)| <= |items|
  {
    if items != [] {
      ReadsAtMost(items[..|items| - 1], allowed);
    }
  }

  lemma ReceivedPlan(plan: Plan, items: seq<Node>, allowed: set<string>, maxToolCalls: int)
    requires NoBlankId(plan)
    requires ReadCalls(Considered(items, maxToolCalls), allowed) != []
    requires Repair(ReadCalls(Considered(items, maxToolCalls), allowed)) == plan
    ensures 0 < |plan| <= maxToolCalls && AllAsRead(plan, allowed) && Repair(plan) == plan
  {
    var seen := Considered(items, maxToolCalls);
    var calls := ReadCalls(seen, allowed);
    RepairedPlan(calls, plan);
    ReceivedIsAsRead(seen, allowed, calls, plan);
    ReadsAtMost(seen, allowed);
  }

  lemma RepairedPlan(calls: Plan, plan: Plan)
    requires Repair(calls) == plan && NoBlankId(plan)
    ensures |plan| == |calls| && NoBlankId(calls) && Repair(plan) == plan
  {
    RepairKeepsShape(calls);
    NoBlankBothWays(calls);
    RepairIsIdempotent(calls);
  }

  lemma WrittenPlan(plan: Plan, allowed: set<string>, maxToolCalls: int)
    requires 0 < |plan| <= maxToolCalls && AllAsRead(plan, allowed) && Repair(plan) == plan
    ensures Receivable(plan, allowed, maxToolCalls)
  {
    AnswerLength(plan);
    AnswerReads(plan, allowed);
    assert Considered(Answer(plan), maxToolCalls) == Answer(plan);
  }

  /** The plans without blank step ids that the parser can yield: not empty, within
      the limit, readable call by call, and not changed by another repair. */
  lemma ReceivableExactly(plan: Plan, allowed: set<string>, maxToolCalls: int)
    requires NoBlankId(plan)
    ensures Receivable(plan, allowed, maxToolCalls)
      <==> 0 < |plan| <= maxToolCalls && AllAsRead(plan, allowed) && Repair(plan) == plan
  {
    if Receivable(plan, allowed, maxToolCalls) {
      var items: seq<Node> :|
        var calls := ReadCalls(Considered(items, maxToolCalls), allowed); calls != [] && Repair(calls) == plan;
      ReceivedPlan(plan, items, allowed, maxToolCalls);
    }
    if 0 < |plan| <= maxToolCalls && AllAsRead(plan, allowed) && Repair(plan) == plan {
      WrittenPlan(plan, allowed, maxToolCalls);
    }
  }

  // ----- post-report calls -----

  lemma {:induction false} NothingDropped(calls: Plan)
    requires forall i :: 0 <= i < |calls| ==> !calls[i].tool.NotifySend?
    ensures WithoutPostReportTools(calls) == calls
  {
    if calls != [] {
      NothingDropped(calls[1..]);
      assert calls == [calls[0]] + calls[1..];
    }
  }

  /** Parsed for the tools the runner lets a planner use, a plan holds no
      post-report call, so dropping those changes nothing. */
  lemma DropIsIdentity(items: seq<Node>, allowed: set<string>)
    requires "notify.send" !in allowed
    ensures var plan := Repair(ReadCalls(items, allowed)); WithoutPostReportTools(plan) == plan
  {
    var plan := Repair(ReadCalls(items, allowed));
    forall i | 0 <= i < |plan|
      ensures !plan[i].tool.NotifySend?
    {
      RepairedTool(ReadCalls(items, allowed), i);
      ReadIsAllowed(items, allowed, ReadCalls(items, allowed)[i]);
    }
    NothingDropped(plan);
  }

  lemma RepairedTool(calls: Plan, i: nat)
    requires i < |Repair(calls)|
    ensures i < |calls| && Repair(calls)[i].tool == calls[i].tool
  {
    RepairKeepsShape(calls);
    RepairedCall(calls, i, "");
  }

  lemma ReadIsAllowed(items: seq<Node>, allowed: set<string>, c: Call)
    requires c in ReadCalls(items, allowed)
    ensures ToolName(c.tool) in allowed
  {
    ReadsAsRead(items, allowed, c);
  }
}
