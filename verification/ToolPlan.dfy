/** Tool plans as the planner produces them: calls that name each other through
    step ids, and the dependency graph those names span. */
module ToolPlan {

  type StepId = string

  /** The tools the planner code singles out; any other keeps its name. */
  datatype Tool = IncidentNormalize | CodeRead | CodeFindCallers | NotifySend | OtherTool(name: string)

  function ToolNamed(name: string): Tool {
    if name == "incident.normalize" then IncidentNormalize
    else if name == "code.read" then CodeRead
    else if name == "code.find_callers" then CodeFindCallers
    else if name == "notify.send" then NotifySend
    else OtherTool(name)
  }

  /** One planned tool call.  `deps` is the call's depends_on list. */
  datatype Call = Call(tool: Tool, id: StepId, deps: seq<StepId>, required: bool)

  type Plan = seq<Call>

  ghost predicate DistinctIds(plan: Plan) {
    forall i, j :: 0 <= i < j < |plan| ==> plan[i].id != plan[j].id
  }

  function Ids(plan: Plan): set<StepId> {
    set c | c in plan :: c.id
  }

  /** Every dependency names a call of the plan. */
  ghost predicate KnownDeps(plan: Plan) {
    forall c, d :: c in plan && d in c.deps ==> d in Ids(plan)
  }

  /** `a` stands strictly before `b` in the plan. */
  ghost predicate Before(plan: Plan, a: StepId, b: StepId) {
    exists i, j :: 0 <= i < j < |plan| && plan[i].id == a && plan[j].id == b
  }

  /** Every dependency names a call that stands earlier in the plan. */
  ghost predicate EarlierOnly(plan: Plan) {
    forall i, d :: 0 <= i < |plan| && d in plan[i].deps ==> d in Ids(plan[..i])
  }

  /** `a` depends on `b`. */
  ghost predicate Edge(plan: Plan, a: StepId, b: StepId) {
    exists c :: c in plan && c.id == a && b in c.deps
  }

  /** `p` follows dependencies from step to step. */
  ghost predicate Walk(plan: Plan, p: seq<StepId>) {
    |p| > 0 && forall i, j :: 0 <= i && j == i + 1 && j < |p| ==> Edge(plan, p[i], p[j])
  }

  ghost predicate Cycle(plan: Plan, p: seq<StepId>) {
    |p| > 1 && Walk(plan, p) && p[0] == p[|p| - 1]
  }

  ghost predicate Acyclic(plan: Plan) {
    forall p :: !Cycle(plan, p)
  }

  /** The part of a walk between two visits to the same step is a cycle. */
  lemma RepeatGivesCycle(plan: Plan, p: seq<StepId>, i: nat, j: nat)
    requires Walk(plan, p) && i < j < |p| && p[i] == p[j]
    ensures Cycle(plan, p[i..j + 1])
  {
    var q := p[i..j + 1];
    forall k | 0 <= k < |q| - 1
      ensures Edge(plan, q[k], q[k + 1])
    {
      assert q[k] == p[i + k] && q[k + 1] == p[i + k + 1];
    }
  }

  /** More positions than values: some value is repeated. */
  lemma {:induction false} Pigeonhole(p: seq<StepId>, s: set<StepId>) returns (i: nat, j: nat)
    requires forall x :: x in p ==> x in s
    requires |p| > |s|
    ensures i < j < |p| && p[i] == p[j]
    decreases |s|
  {
    var last := p[|p| - 1];
    if k :| 0 <= k < |p| - 1 && p[k] == last {
      i, j := k, |p| - 1;
    } else {
      var q := p[..|p| - 1];
      assert last in s by { assert last in p; }
      forall x | x in q
        ensures x in s - {last}
      {
        assert x in p;
      }
      i, j := Pigeonhole(q, s - {last});
    }
  }

  lemma {:induction false} IdsBounded(plan: Plan)
    ensures |Ids(plan)| <= |plan|
  {
    if |plan| == 0 {
      assert Ids(plan) == {};
    } else {
      var rest := plan[1..];
      IdsBounded(rest);
      assert forall c :: c in plan <==> c == plan[0] || c in rest;
      assert Ids(plan) == {plan[0].id} + Ids(rest);
    }
  }

  /** Along a plan whose dependencies only point back, a walk moves strictly
      towards the front; hence such a plan has no cycle. */
  lemma EarlierOnlyIsAcyclic(plan: Plan)
    requires DistinctIds(plan) && EarlierOnly(plan)
    ensures Acyclic(plan)
  {
    forall p | Cycle(plan, p)
      ensures false
    {
      assert Edge(plan, p[0], p[0 + 1]);
      var c :| c in plan && c.id == p[0];
      var k :| 0 <= k < |plan| && plan[k] == c;
      var j := WalkMovesBack(plan, p, k);
    }
  }

  lemma WalkStep(plan: Plan, p: seq<StepId>, i: nat, j: nat)
    requires Walk(plan, p) && j == i + 1 < |p|
    ensures Edge(plan, p[i], p[j])
  {
  }

  lemma WalkTail(plan: Plan, p: seq<StepId>)
    requires Walk(plan, p) && |p| > 1
    ensures Walk(plan, p[1..])
  {
    var q := p[1..];
    forall i | 0 <= i < |q| - 1
      ensures Edge(plan, q[i], q[i + 1])
    {
      var k := i + 1;
      assert Edge(plan, p[k], p[k + 1]);
    }
  }

  /** The dependency a call names stands at a smaller index. */
  lemma EdgePointsBack(plan: Plan, k: nat, d: StepId) returns (j: nat)
    requires DistinctIds(plan) && EarlierOnly(plan)
    requires k < |plan| && Edge(plan, plan[k].id, d)
    ensures j < k && plan[j].id == d
  {
    var c :| c in plan && c.id == plan[k].id && d in c.deps;
    var m :| 0 <= m < |plan| && plan[m] == c;
    assert m == k;
    var e :| e in plan[..k] && e.id == d;
    j :| 0 <= j < k && plan[j] == e;
  }

  lemma {:induction false} WalkMovesBack(plan: Plan, p: seq<StepId>, k: nat) returns (j: nat)
    requires DistinctIds(plan) && EarlierOnly(plan) && Walk(plan, p) && |p| > 1
    requires k < |plan| && plan[k].id == p[0]
    ensures j < k && plan[j].id == p[|p| - 1]
    decreases |p|
  {
    assert Edge(plan, p[0], p[0 + 1]);
    j := EdgePointsBack(plan, k, p[1]);
    if |p| > 2 {
      WalkTail(plan, p);
      j := WalkMovesBack(plan, p[1..], j);
    }
  }
}
