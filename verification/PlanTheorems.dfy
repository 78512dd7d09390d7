/** The scheduler's main results: agreement with an in-order evaluation, the
    exact meaning of a cycle mark, one trace per step, and the verdict. */
module PlanTheorems {
  import opened ToolPlan
  import opened WaveRun
  import opened WaveTheorems

  // ----- the trace of a step -----

  lemma TraceOf(plan: Plan, ok: Oracle, c: Call) returns (i: nat)
    requires DistinctIds(plan) && c in plan
    ensures i < |Run(plan, ok)| && Run(plan, ok)[i].call == c
  {
    RunFaithful(plan, ok);
    var tr := Run(plan, ok);
    assert c.id in Done(tr);
    var t :| t in tr && t.call.id == c.id;
    i :| 0 <= i < |tr| && tr[i] == t;
    assert Justified(plan, ok, tr, i);
    SameId(plan, t.call, c);
  }

  lemma SameId(plan: Plan, a: Call, b: Call)
    requires DistinctIds(plan) && a in plan && b in plan && a.id == b.id
    ensures a == b
  {
    var i :| 0 <= i < |plan| && plan[i] == a;
    var j :| 0 <= j < |plan| && plan[j] == b;
  }

  lemma OneTrace(plan: Plan, ok: Oracle, tr: seq<Trace>, i: nat, j: nat)
    requires Faithful(plan, ok, tr) && i < |tr| && j < |tr| && tr[i].call.id == tr[j].call.id
    ensures i == j
  {
    assert Justified(plan, ok, tr, i) && Justified(plan, ok, tr, j);
  }

  function Calls(tr: seq<Trace>): seq<Call> {
    seq(|tr|, i requires 0 <= i < |tr| => tr[i].call)
  }

  lemma {:induction false} DistinctCounts(p: Plan)
    requires DistinctIds(p)
    ensures forall c :: multiset(p)[c] == if c in p then 1 else 0
  {
    if p != [] {
      var q := p[..|p| - 1];
      var last := p[|p| - 1];
      DistinctCounts(q);
      assert p == q + [last];
      assert last !in q;
    }
  }

  /** Every planned step gets exactly one trace. */
  lemma EachStepTracedOnce(plan: Plan, ok: Oracle)
    requires DistinctIds(plan)
    ensures multiset(Calls(Run(plan, ok))) == multiset(plan)
  {
    var tr := Run(plan, ok);
    var cs := Calls(tr);
    RunFaithful(plan, ok);
    forall i, j | 0 <= i < j < |cs|
      ensures cs[i].id != cs[j].id
    {
      assert Justified(plan, ok, tr, j);
    }
    forall c
      ensures c in cs <==> c in plan
    {
      if c in plan {
        var i := TraceOf(plan, ok, c);
        assert cs[i] == c;
      }
      if c in cs {
        var i :| 0 <= i < |cs| && cs[i] == c;
        assert Justified(plan, ok, tr, i);
      }
    }
    DistinctCounts(cs);
    DistinctCounts(plan);
  }

  // ----- any order -----

  /** In a plan of any order, an executed step had each of its dependencies
      traced strictly before it.  The dependency was required and did not
      succeed exactly when it is a required step listed later in the plan that
      the skip pass of the same wave skipped. */
  lemma ExecutedDespite(plan: Plan, ok: Oracle, i: nat, d: StepId)
    requires DistinctIds(plan)
    requires i < |Run(plan, ok)| && Run(plan, ok)[i].outcome.Executed?
    requires d in Run(plan, ok)[i].call.deps
    ensures Run(plan, ok)[i].outcome == Executed(ok(Run(plan, ok)[i].call.id))
    ensures
      var tr := Run(plan, ok);
      exists j :: (
        && 0 <= j < i && tr[j].call.id == d
        && (Blocks(tr[j]) <==> tr[j].call.required && LateSkip(plan, tr[j], tr[i])))
  {
    RunFaithful(plan, ok);
    assert Justified(plan, ok, Run(plan, ok), i);
    assert DependencyMet(plan, Run(plan, ok), i, d);
  }

  /** A step is skipped as failed-dependency only on the trace, before its own,
      of a required dependency that failed or was skipped. */
  lemma SkippedForAReason(plan: Plan, ok: Oracle, i: nat)
    requires DistinctIds(plan)
    requires i < |Run(plan, ok)| && Run(plan, ok)[i].outcome == DependencyFailed
    ensures
      var tr := Run(plan, ok);
      exists j :: (
        && 0 <= j < i && tr[j].call.id in tr[i].call.deps && tr[j].call.required
        && tr[j].outcome in {Executed(false), DependencyFailed})
  {
    RunFaithful(plan, ok);
    assert Justified(plan, ok, Run(plan, ok), i);
    var j: nat :| BlockedBy(Run(plan, ok), i, j);
    assert Run(plan, ok)[j].outcome != Executed(true);
  }

  lemma PrefixIn(tr: seq<Trace>, tr': seq<Trace>)
    requires tr <= tr'
    ensures forall t :: t in tr ==> t in tr'
  {
    forall t | t in tr
      ensures t in tr'
    {
      var k :| 0 <= k < |tr| && tr[k] == t;
      assert tr'[k] == t;
    }
  }

  /** The first wave executes exactly the calls without dependencies, if any. */
  lemma FirstWave(plan: Plan, ok: Oracle)
    ensures forall c :: c in plan && c.deps == [] ==> Trace(c, Executed(ok(c.id)), 0) in Wave(plan, ok, 0, [])
    ensures (exists c :: c in plan && c.deps == []) ==>
      forall t :: t in Wave(plan, ok, 0, []) ==> t.call in plan && t.call.deps == []
    ensures (forall c :: c in plan ==> c.deps != []) ==>
      forall c :: c in plan ==> Trace(c, DependencyCycle, 0) in Wave(plan, ok, 0, [])
    ensures (forall c :: c in plan ==> c.deps != []) ==>
      forall t :: t in Wave(plan, ok, 0, []) ==> t.outcome == DependencyCycle
  {
    var cs := Unfinished(plan, Done([]));
    UnfinishedAt(plan, Done([]));
    assert Done([]) == {};
    SkipPassIdle(cs, 0, []);
    ReadyAt(cs, {});
    var ready := Ready(cs, {});
    forall c
      ensures c in ready <==> c in plan && c.deps == []
    {
      assert IsReady(c, {}) <==> c.deps == [] by {
        if c.deps != [] {
          assert c.deps[0] in c.deps;
        }
      }
    }
    forall c | c in ready
      ensures Trace(c, Executed(ok(c.id)), 0) in ExecutePass(ready, ok, 0)
    {
      var k :| 0 <= k < |ready| && ready[k] == c;
      assert ExecutePass(ready, ok, 0)[k] == Trace(c, Executed(ok(c.id)), 0);
    }
    forall c | c in cs
      ensures Trace(c, DependencyCycle, 0) in CyclePass(cs, 0)
    {
      var k :| 0 <= k < |cs| && cs[k] == c;
      assert CyclePass(cs, 0)[k] == Trace(c, DependencyCycle, 0);
    }
    assert Wave(plan, ok, 0, []) == if ready != [] then ExecutePass(ready, ok, 0) else CyclePass(cs, 0);
    assert ready != [] ==> ready[0] in ready;
  }

  lemma {:induction false} SkipPassIdle(cs: seq<Call>, w: nat, tr: seq<Trace>)
    requires Blocking(tr) == {}
    ensures SkipPass(cs, w, tr) == tr
    decreases |cs|
  {
    if cs != [] {
      SkipPassIdle(cs[1..], w, tr);
    }
  }

  lemma {:induction false} RunFromExtends(plan: Plan, ok: Oracle, w: nat, tr: seq<Trace>)
    ensures tr <= RunFrom(plan, ok, w, tr)
    decreases Ids(plan) - Done(tr)
  {
    if Unfinished(plan, Done(tr)) != [] {
      WaveProgress(plan, ok, w, tr);
      WaveExtends(plan, ok, w, tr);
      RunFromExtends(plan, ok, w + 1, Wave(plan, ok, w, tr));
    }
  }

  // ----- agreement with one pass in plan order -----

  /** Outcomes so far, and the steps whose dependents must be skipped. */
  datatype Verdicts = Verdicts(outcomes: map<StepId, Outcome>, unmet: set<StepId>)

  /** The plan evaluated call by call: a call with a required dependency that
      did not succeed is skipped, any other call is executed. */
  function InOrder(plan: Plan, ok: Oracle): Verdicts {
    if plan == [] then Verdicts(map[], {})
    else
      var v := InOrder(plan[..|plan| - 1], ok);
      var c := plan[|plan| - 1];
      var o := if IsBlocked(c, v.unmet) then DependencyFailed else Executed(ok(c.id));
      Verdicts(v.outcomes[c.id := o], if c.required && o != Executed(true) then v.unmet + {c.id} else v.unmet)
  }

  /** The outcome each step ends with. */
  function StatusMap(tr: seq<Trace>): map<StepId, Outcome> {
    if tr == [] then map[]
    else StatusMap(tr[..|tr| - 1])[tr[|tr| - 1].call.id := tr[|tr| - 1].outcome]
  }

  lemma {:induction false} StatusMapKeys(tr: seq<Trace>)
    ensures StatusMap(tr).Keys == Done(tr)
  {
    if tr != [] {
      var q, last := tr[..|tr| - 1], tr[|tr| - 1];
      StatusMapKeys(q);
      assert tr == q + [last];
    }
  }

  lemma {:induction false} StatusMapAt(tr: seq<Trace>, i: nat)
    requires i < |tr| && forall j :: i < j < |tr| ==> tr[j].call.id != tr[i].call.id
    ensures tr[i].call.id in StatusMap(tr) && StatusMap(tr)[tr[i].call.id] == tr[i].outcome
  {
    if i < |tr| - 1 {
      StatusMapAt(tr[..|tr| - 1], i);
    }
  }

  lemma EarlierIsNotLater(plan: Plan, k: nat, d: StepId)
    requires DistinctIds(plan) && EarlierOnly(plan) && k < |plan| && d in plan[k].deps
    ensures d in Ids(plan[..k]) && !Before(plan, plan[k].id, d)
  {
    var c :| c in plan[..k] && c.id == d;
    var j :| 0 <= j < k && plan[j] == c;
  }

  /** One step of the comparison: what decides the outcome of `tr[i]`. */
  lemma OutcomeOfStep(plan: Plan, ok: Oracle, tr: seq<Trace>, i: nat, k: nat)
    requires DistinctIds(plan) && EarlierOnly(plan) && Faithful(plan, ok, tr) && NoCycleMarks(tr)
    requires i < |tr| && k < |plan| && tr[i].call == plan[k]
    ensures tr[i].outcome ==
      if IsBlocked(plan[k], Blocking(tr)) then DependencyFailed else Executed(ok(plan[k].id))
  {
    assert Justified(plan, ok, tr, i);
    assert tr[i] in tr;
    match tr[i].outcome
    case Executed(_) =>
      forall d | d in plan[k].deps
        ensures d !in Blocking(tr)
      {
        EarlierIsNotLater(plan, k, d);
        assert DependencyMet(plan, tr, i, d);
        var j :| 0 <= j < i && tr[j].call.id == d && (Blocks(tr[j]) ==> LateSkip(plan, tr[j], tr[i]));
        forall t | t in tr && t.call.id == d
          ensures !Blocks(t)
        {
          var m :| 0 <= m < |tr| && tr[m] == t;
          OneTrace(plan, ok, tr, j, m);
        }
      }
    case DependencyFailed =>
      var j: nat :| BlockedBy(tr, i, j);
      TracedIsDone(tr, j);
  }

  /** `status` decides each call of the plan from the blocking steps `b`. */
  ghost predicate Settles(plan: Plan, ok: Oracle, status: map<StepId, Outcome>, b: set<StepId>) {
    forall k :: 0 <= k < |plan| ==>
      && plan[k].id in status
      && status[plan[k].id] == (if IsBlocked(plan[k], b) then DependencyFailed else Executed(ok(plan[k].id)))
      && (plan[k].id in b <==> plan[k].required && status[plan[k].id] != Executed(true))
  }

  lemma InOrderStep(plan: Plan, ok: Oracle, k: nat)
    requires 0 < k <= |plan|
    ensures
      var v := InOrder(plan[..k - 1], ok);
      var c := plan[k - 1];
      var o := if IsBlocked(c, v.unmet) then DependencyFailed else Executed(ok(c.id));
      && InOrder(plan[..k], ok).outcomes == v.outcomes[c.id := o]
      && InOrder(plan[..k], ok).unmet == if c.required && o != Executed(true) then v.unmet + {c.id} else v.unmet
    ensures Ids(plan[..k]) == Ids(plan[..k - 1]) + {plan[k - 1].id}
  {
    assert plan[..k][..k - 1] == plan[..k - 1];
    assert plan[..k] == plan[..k - 1] + [plan[k - 1]];
  }

  lemma BlockedInPrefix(plan: Plan, k: nat, b: set<StepId>)
    requires DistinctIds(plan) && EarlierOnly(plan) && k < |plan|
    ensures IsBlocked(plan[k], b) <==> IsBlocked(plan[k], b * Ids(plan[..k]))
  {
    forall d | d in plan[k].deps
      ensures d in Ids(plan[..k])
    {
      EarlierIsNotLater(plan, k, d);
    }
  }

  /** `v` has the outcomes that `status` gives the steps `ids`. */
  ghost predicate Agrees(v: Verdicts, ids: set<StepId>, status: map<StepId, Outcome>, b: set<StepId>) {
    && v.outcomes.Keys == ids
    && v.unmet == b * ids
    && forall x :: x in ids ==> x in status && v.outcomes[x] == status[x]
  }

  lemma AgreesExtends(v: Verdicts, v': Verdicts, ids: set<StepId>, status: map<StepId, Outcome>,
                      b: set<StepId>, c: Call, o: Outcome)
    requires Agrees(v, ids, status, b) && c.id in status && status[c.id] == o
    requires c.id in b <==> c.required && o != Executed(true)
    requires v'.outcomes == v.outcomes[c.id := o]
    requires v'.unmet == if c.required && o != Executed(true) then v.unmet + {c.id} else v.unmet
    ensures Agrees(v', ids + {c.id}, status, b)
  {
  }

  lemma {:induction false} InOrderAgrees(plan: Plan, ok: Oracle, status: map<StepId, Outcome>, b: set<StepId>, k: nat)
    requires DistinctIds(plan) && EarlierOnly(plan) && Settles(plan, ok, status, b) && k <= |plan|
    ensures Agrees(InOrder(plan[..k], ok), Ids(plan[..k]), status, b)
    decreases k
  {
    if k > 0 {
      InOrderAgrees(plan, ok, status, b, k - 1);
      InOrderStep(plan, ok, k);
      BlockedInPrefix(plan, k - 1, b);
      var c := plan[k - 1];
      AgreesExtends(InOrder(plan[..k - 1], ok), InOrder(plan[..k], ok), Ids(plan[..k - 1]), status, b, c,
                    status[c.id]);
    }
  }

  /** What the run ends with settles the plan. */
  lemma RunSettles(plan: Plan, ok: Oracle)
    requires DistinctIds(plan) && EarlierOnly(plan)
    ensures Settles(plan, ok, StatusMap(Run(plan, ok)), Blocking(Run(plan, ok)))
  {
    var tr := Run(plan, ok);
    RunFaithful(plan, ok);
    EarlierOnlyNeverCycles(plan, ok);
    forall k | 0 <= k < |plan|
      ensures
        && plan[k].id in StatusMap(tr)
        && StatusMap(tr)[plan[k].id] ==
           (if IsBlocked(plan[k], Blocking(tr)) then DependencyFailed else Executed(ok(plan[k].id)))
        && (plan[k].id in Blocking(tr) <==> plan[k].required && StatusMap(tr)[plan[k].id] != Executed(true))
    {
      var i := TraceOf(plan, ok, plan[k]);
      forall j | i < j < |tr|
        ensures tr[j].call.id != tr[i].call.id
      {
        assert Justified(plan, ok, tr, j);
      }
      StatusMapAt(tr, i);
      OutcomeOfStep(plan, ok, tr, i, k);
      BlocksAt(plan, ok, tr, i);
    }
  }

  lemma BlocksAt(plan: Plan, ok: Oracle, tr: seq<Trace>, i: nat)
    requires Faithful(plan, ok, tr) && i < |tr|
    ensures tr[i].call.id in Blocking(tr) <==> Blocks(tr[i])
  {
    if tr[i].call.id in Blocking(tr) {
      var t :| t in tr && Blocks(t) && t.call.id == tr[i].call.id;
      var m :| 0 <= m < |tr| && tr[m] == t;
      OneTrace(plan, ok, tr, i, m);
    }
    TracedIsDone(tr, i);
  }

  lemma DoneIsPlan(plan: Plan, ok: Oracle)
    requires DistinctIds(plan)
    ensures Done(Run(plan, ok)) == Ids(plan)
  {
    var tr := Run(plan, ok);
    RunFaithful(plan, ok);
    forall t | t in tr
      ensures t.call in plan
    {
      var m :| 0 <= m < |tr| && tr[m] == t;
      assert Justified(plan, ok, tr, m);
    }
  }

  /** The refinement: with dependencies that all name earlier steps, the waves
      end with the outcomes of the one-pass evaluation, whatever the gateway
      answers. */
  lemma WavesRefineInOrder(plan: Plan, ok: Oracle)
    requires DistinctIds(plan) && EarlierOnly(plan)
    ensures StatusMap(Run(plan, ok)) == InOrder(plan, ok).outcomes
    ensures Blocking(Run(plan, ok)) == InOrder(plan, ok).unmet
  {
    var tr := Run(plan, ok);
    RunSettles(plan, ok);
    StatusMapKeys(tr);
    DoneIsPlan(plan, ok);
    InOrderAgrees(plan, ok, StatusMap(tr), Blocking(tr), |plan|);
    assert plan[..|plan|] == plan;
    assert Blocking(tr) <= Done(tr);
  }

  // ----- cycle marks -----

  function Marked(tr: seq<Trace>): set<StepId> {
    set t | t in tr && t.outcome == DependencyCycle :: t.call.id
  }

  /** A marked step depends on a marked step, or on no step of the plan. */
  lemma MarkedStep(plan: Plan, ok: Oracle, x: StepId) returns (y: StepId)
    requires DistinctIds(plan) && x in Marked(Run(plan, ok))
    ensures Edge(plan, x, y) && (y in Marked(Run(plan, ok)) || y !in Ids(plan))
  {
    var tr := Run(plan, ok);
    RunFaithful(plan, ok);
    var t :| t in tr && t.outcome == DependencyCycle && t.call.id == x;
    var i :| 0 <= i < |tr| && tr[i] == t;
    assert Justified(plan, ok, tr, i);
    y :| y in t.call.deps && Unresolved(tr, i, y);
    if y in Ids(plan) {
      var c :| c in plan && c.id == y;
      var j := TraceOf(plan, ok, c);
      assert Justified(plan, ok, tr, j);
      assert tr[j] in tr;
    }
  }

  /** A walk inside `m` from `x`: it repeats a step, or its last step depends on
      a step the plan does not have. */
  ghost predicate DeadEndWalk(plan: Plan, m: set<StepId>, x: StepId, p: seq<StepId>) {
    && Walk(plan, p) && p[0] == x && (forall y :: y in p ==> y in m)
    && ((exists i, j :: 0 <= i < j < |p| && p[i] == p[j])
        || exists d :: d !in Ids(plan) && Edge(plan, p[|p| - 1], d))
  }

  lemma {:induction false} WalkForward(plan: Plan, ok: Oracle, x: StepId, n: nat) returns (p: seq<StepId>)
    requires DistinctIds(plan) && x in Marked(Run(plan, ok))
    ensures Walk(plan, p) && p[0] == x && forall y :: y in p ==> y in Marked(Run(plan, ok))
    ensures |p| == n + 1 || exists d :: d !in Ids(plan) && Edge(plan, p[|p| - 1], d)
  {
    if n == 0 {
      p := [x];
    } else {
      p := WalkForward(plan, ok, x, n - 1);
      if |p| == n {
        assert p[n - 1] in p;
        var y := MarkedStep(plan, ok, p[n - 1]);
        if y in Marked(Run(plan, ok)) {
          var q := p + [y];
          forall i | 0 <= i < |q| - 1
            ensures Edge(plan, q[i], q[i + 1])
          {
            assert i < n - 1 ==> q[i] == p[i] && q[i + 1] == p[i + 1];
          }
          p := q;
        }
      }
    }
  }

  /** A step marked as part of a dependency cycle reaches, through steps so
      marked, a genuine cycle or a dependency that is no step of the plan. */
  lemma CycleMarkHasReason(plan: Plan, ok: Oracle, x: StepId) returns (p: seq<StepId>)
    requires DistinctIds(plan) && x in Marked(Run(plan, ok))
    ensures DeadEndWalk(plan, Marked(Run(plan, ok)), x, p)
  {
    p := WalkForward(plan, ok, x, |plan|);
    if |p| == |plan| + 1 {
      var tr := Run(plan, ok);
      RunFaithful(plan, ok);
      forall y | y in p
        ensures y in Ids(plan)
      {
        var t :| t in tr && t.outcome == DependencyCycle && t.call.id == y;
        var k :| 0 <= k < |tr| && tr[k] == t;
        assert Justified(plan, ok, tr, k);
      }
      IdsBounded(plan);
      var i, j := Pigeonhole(p, Ids(plan));
    }
  }

  lemma EarlierOnlyNeverCycles(plan: Plan, ok: Oracle)
    requires DistinctIds(plan) && EarlierOnly(plan)
    ensures NoCycleMarks(Run(plan, ok))
  {
    EarlierOnlyIsAcyclic(plan);
    forall c, d | c in plan && d in c.deps
      ensures d in Ids(plan)
    {
      var k :| 0 <= k < |plan| && plan[k] == c;
      var e :| e in plan[..k] && e.id == d;
      assert e in plan;
    }
    AcyclicNeverMarked(plan, ok);
  }

  lemma AcyclicNeverMarked(plan: Plan, ok: Oracle)
    requires DistinctIds(plan) && Acyclic(plan) && KnownDeps(plan)
    ensures NoCycleMarks(Run(plan, ok))
  {
    forall t | t in Run(plan, ok)
      ensures t.outcome != DependencyCycle
    {
      if t.outcome == DependencyCycle {
        var p := CycleMarkHasReason(plan, ok, t.call.id);
        if i, j :| 0 <= i < j < |p| && p[i] == p[j] {
          RepeatGivesCycle(plan, p, i, j);
        }
      }
    }
  }

  const AllSucceed: Oracle := _ => true

  /** With every call succeeding, a step that is not marked was executed. */
  lemma {:induction false} AllSucceedRunsOrMarks(plan: Plan, i: nat)
    requires DistinctIds(plan) && i < |Run(plan, AllSucceed)|
    ensures Run(plan, AllSucceed)[i].outcome in {Executed(true), DependencyCycle}
  {
    var tr := Run(plan, AllSucceed);
    RunFaithful(plan, AllSucceed);
    assert Justified(plan, AllSucceed, tr, i);
    if tr[i].outcome == DependencyFailed {
      var j: nat :| BlockedBy(tr, i, j);
      AllSucceedRunsOrMarks(plan, j);
    }
  }

  /** A dependency of an executed step is executed at a smaller position. */
  lemma {:induction false} ExecutedWalk(plan: Plan, p: seq<StepId>, i: nat) returns (j: nat)
    requires DistinctIds(plan) && Walk(plan, p) && |p| > 1
    requires NoCycleMarks(Run(plan, AllSucceed))
    requires i < |Run(plan, AllSucceed)| && Run(plan, AllSucceed)[i].call.id == p[0]
    ensures j < i && Run(plan, AllSucceed)[j].call.id == p[|p| - 1]
    decreases |p|
  {
    var tr := Run(plan, AllSucceed);
    RunFaithful(plan, AllSucceed);
    AllSucceedRunsOrMarks(plan, i);
    assert Justified(plan, AllSucceed, tr, i);
    assert tr[i] in tr;
    assert Edge(plan, p[0], p[0 + 1]);
    var c :| c in plan && c.id == p[0] && p[1] in c.deps;
    SameId(plan, c, tr[i].call);
    assert DependencyMet(plan, tr, i, p[1]);
    j :| 0 <= j < i && tr[j].call.id == p[1];
    if |p| > 2 {
      WalkTail(plan, p);
      j := ExecutedWalk(plan, p[1..], j);
    }
  }

  /** No gateway makes the scheduler report a dependency cycle. */
  ghost predicate NeverMarked(plan: Plan) {
    forall ok: Oracle :: NoCycleMarks(Run(plan, ok))
  }

  /** The exact meaning of the mark: no gateway ever makes the scheduler report
      a dependency cycle if and only if the plan has no cycle and names no step
      it does not have. */
  lemma NeverMarkedIffAcyclic(plan: Plan)
    requires DistinctIds(plan)
    ensures Acyclic(plan) && KnownDeps(plan) <==> NeverMarked(plan)
  {
    if Acyclic(plan) && KnownDeps(plan) {
      forall ok: Oracle
        ensures NoCycleMarks(Run(plan, ok))
      {
        AcyclicNeverMarked(plan, ok);
      }
    }
    if NoCycleMarks(Run(plan, AllSucceed)) {
      forall p
        ensures !Cycle(plan, p)
      {
        if Cycle(plan, p) {
          assert Edge(plan, p[0], p[0 + 1]);
          var c :| c in plan && c.id == p[0];
          var i := TraceOf(plan, AllSucceed, c);
          var j := ExecutedWalk(plan, p, i);
          RunFaithful(plan, AllSucceed);
          OneTrace(plan, AllSucceed, Run(plan, AllSucceed), i, j);
        }
      }
      forall c, d | c in plan && d in c.deps
        ensures d in Ids(plan)
      {
        var i := TraceOf(plan, AllSucceed, c);
        assert Edge(plan, c.id, d);
        var j := ExecutedWalk(plan, [c.id, d], i);
        RunFaithful(plan, AllSucceed);
        assert Justified(plan, AllSucceed, Run(plan, AllSucceed), j);
      }
    }
  }

  /** When every call of a plan waits for a call of the plan, there is a cycle. */
  lemma AllWaitingIsCyclic(plan: Plan)
    requires DistinctIds(plan) && KnownDeps(plan) && plan != [] && forall c :: c in plan ==> c.deps != []
    ensures !Acyclic(plan)
  {
    var ok := AllSucceed;
    var next := Wave(plan, ok, 0, []);
    FirstWave(plan, ok);
    UnfinishedAt(plan, Done([]));
    assert plan[0] in plan && plan[0].id !in Done([]);
    WaveProgress(plan, ok, 0, []);
    RunFromExtends(plan, ok, 1, next);
    PrefixIn(next, Run(plan, ok));
    assert Trace(plan[0], DependencyCycle, 0) in Run(plan, ok);
    if Acyclic(plan) {
      AcyclicNeverMarked(plan, ok);
    }
  }
}
