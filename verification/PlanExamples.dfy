/** Small plans on which the runner does something unexpected. */
module PlanExamples {
  import opened Text
  import opened ToolPlan
  import opened WaveRun
  import opened WaveTheorems
  import opened PlanTheorems
  import opened OrderTheorems
  import opened CaseContracts
  import opened ToolPlanParser
  import opened ParserTheorems
  import opened ParserRange

  const TOOL: string := "log.query"

  function Query(id: StepId, deps: seq<StepId>, required: bool): Call {
    Call(OtherTool(TOOL), id, deps, required)
  }

  lemma ToolIsPlain()
    ensures ToolNamed(TOOL) == OtherTool(TOOL) && Strip(TOOL) == TOOL
  {
    assert TOOL[0] == 'l' && "code.read"[0] == 'c';
    assert |TOOL| == 9 && |"incident.normalize"| == 18 && |"code.find_callers"| == 17 && |"notify.send"| == 11;
    Trimmed(TOOL);
  }

  /** A query whose id and dependencies are stripped can be read. */
  lemma QueryIsAsRead(c: Call)
    requires c.tool == OtherTool(TOOL) && Stripped(c.id) && NameList(c.deps)
    ensures AsRead(c, {TOOL})
  {
    ToolIsPlain();
  }

  lemma Letter(x: char)
    requires !IsSpace(x)
    ensures Stripped([x]) && NameList([[x]])
  {
    Trimmed([x]);
  }

  /** Queries that name known other steps are received as they are. */
  lemma QueriesAreReceived(plan: Plan, maxToolCalls: int)
    requires 0 < |plan| <= maxToolCalls && KnownDeps(plan)
    requires forall c :: c in plan ==>
      c.tool == OtherTool(TOOL) && Stripped(c.id) && NameList(c.deps) && c.id !in c.deps
    ensures Receivable(plan, {TOOL}, maxToolCalls)
  {
    forall c | c in plan
      ensures AsRead(c, {TOOL})
    {
      QueryIsAsRead(c);
    }
    FilterIsIdentity(plan);
    NormalizeIdAt(plan);
    WrittenPlan(plan, {TOOL}, maxToolCalls);
  }

  // ----- a step that runs on an unmet dependency -----

  const FIRST: Call := Query(['a'], [], true)
  const SECOND: Call := Query(['b'], [['a']], true)
  const THIRD: Call := Query(['c'], [['b']], true)

  /** `c` waits for `b`, `b` for `a`, in the order a, c, b. */
  const OUT_OF_ORDER: Plan := [FIRST, THIRD, SECOND]

  lemma OutOfOrderShape()
    ensures DistinctIds(OUT_OF_ORDER) && KnownDeps(OUT_OF_ORDER) && Acyclic(OUT_OF_ORDER)
    ensures FIRST in OUT_OF_ORDER && SECOND in OUT_OF_ORDER && THIRD in OUT_OF_ORDER
    ensures BreaksOrder(OUT_OF_ORDER, THIRD, SECOND, FIRST) && OthersInTime(OUT_OF_ORDER, THIRD, SECOND, FIRST)
  {
    var sorted := [FIRST, SECOND, THIRD];
    assert OUT_OF_ORDER[0] == FIRST && OUT_OF_ORDER[1] == THIRD && OUT_OF_ORDER[2] == SECOND;
    assert ['a'] in Ids(OUT_OF_ORDER) && ['b'] in Ids(OUT_OF_ORDER);
    assert sorted[0] in sorted[..1] && sorted[1] in sorted[..2];
    EarlierOnlyIsAcyclic(sorted);
    forall p
      ensures !Cycle(OUT_OF_ORDER, p)
    {
      if Cycle(OUT_OF_ORDER, p) {
        assert forall c :: c in OUT_OF_ORDER ==> c in sorted;
        CycleOfMore(OUT_OF_ORDER, sorted, p);
      }
    }
  }

  /** The parser yields this plan, and when `a` fails, `b` is skipped and `c` runs in
      the very same wave. */
  lemma OutOfOrderExample() returns (w: nat)
    ensures Receivable(OUT_OF_ORDER, {TOOL}, 3)
    ensures var tr := Run(OUT_OF_ORDER, FailsAt(['a']));
      && Trace(FIRST, Executed(false), w) in tr && Trace(SECOND, DependencyFailed, w + 1) in tr
      && Trace(THIRD, Executed(true), w + 1) in tr
  {
    Letter('a');
    Letter('b');
    Letter('c');
    OutOfOrderShape();
    QueriesAreReceived(OUT_OF_ORDER, 3);
    w := UnsafeOrderRunsBlocked(OUT_OF_ORDER, THIRD, SECOND, FIRST);
  }

  // ----- a run that raises at its end -----

  /** Two optional calls that wait for each other: the parser yields the plan, the
      case is built, nothing runs and nothing is required, so by the contract of the
      runner the last case transition raises. */
  lemma OptionalCycleExample()
    ensures var plan := [Query(['a'], [['b']], false), Query(['b'], [['a']], false)];
      && Receivable(plan, {TOOL}, 2) && Buildable(plan) && DistinctIds(plan)
      && forall c :: c in plan ==> c.deps != [] && !c.required
  {
    var plan := [Query(['a'], [['b']], false), Query(['b'], [['a']], false)];
    Letter('a');
    Letter('b');
    assert plan[0] in plan && plan[1] in plan;
    assert ['a'] in Ids(plan) && ['b'] in Ids(plan);
    QueriesAreReceived(plan, 2);
  }

  // ----- a run that raises at its start -----

  /** One call whose step id is a space: the parser yields a plan that no case can
      be built from. */
  lemma BlankIdExample()
    ensures Receivable([Query("", [], true)], {TOOL}, 1) && !Buildable([Query("", [], true)])
  {
    var plan := [Query("", [], true)];
    assert plan[0] in plan;
    QueriesAreReceived(plan, 1);
  }

  // ----- a run that raises in its loop -----

  /** Two calls that give one step id: the parser yields the plan and the case is
      built, but by the contract of the runner the loop raises. */
  lemma RepeatedIdExample()
    ensures var plan := [Query(['a'], [], true), Query(['a'], [], true)];
      Receivable(plan, {TOOL}, 2) && Buildable(plan) && !DistinctIds(plan)
  {
    var plan := [Query(['a'], [], true), Query(['a'], [], true)];
    Letter('a');
    assert plan[0].id == plan[1].id;
    QueriesAreReceived(plan, 2);
  }

  // ----- a cycle mark without a cycle -----

  /** A planner of another kind may return a plan with a post-report call.  Once
      that call is dropped, the call that waits for it is reported as part of a
      dependency cycle under every gateway, although the plan had none. */
  lemma DroppedDependencyExample(ok: Oracle)
    ensures var plan := [Call(NotifySend, ['n'], [], true), Query(['c'], [['n']], true)];
      && DistinctIds(plan) && KnownDeps(plan) && Acyclic(plan)
      && Trace(plan[1], DependencyCycle, 0) in Run(WithoutPostReportTools(plan), ok)
  {
    var n, c := Call(NotifySend, ['n'], [], true), Query(['c'], [['n']], true);
    var plan := [n, c];
    assert plan[0] in plan[..1] && plan[0] in plan && ['n'] in Ids(plan);
    EarlierOnlyIsAcyclic(plan);
    DropsFirst(n, c);
    LoneDependentIsMarked(c, ok);
  }

  lemma DropsFirst(n: Call, c: Call)
    requires n.tool.NotifySend? && !c.tool.NotifySend?
    ensures WithoutPostReportTools([n, c]) == [c]
  {
    assert [n, c][1..] == [c] && [c][1..] == [];
    assert WithoutPostReportTools([]) == [] && WithoutPostReportTools([c]) == [c];
  }

  lemma LoneDependentIsMarked(c: Call, ok: Oracle)
    requires c.deps != []
    ensures Trace(c, DependencyCycle, 0) in Run([c], ok)
  {
    var kept := [c];
    var next := Wave(kept, ok, 0, []);
    FirstWave(kept, ok);
    UnfinishedAt(kept, Done([]));
    assert kept[0] in kept && c.id !in Done([]);
    WaveProgress(kept, ok, 0, []);
    RunFromExtends(kept, ok, 1, next);
    PrefixIn(next, Run(kept, ok));
  }
}
