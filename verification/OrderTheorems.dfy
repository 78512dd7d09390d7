/** When the order of a plan keeps steps from running on unmet dependencies. */
module OrderTheorems {
  import opened ToolPlan
  import opened WaveRun
  import opened WaveTheorems
  import opened PlanTheorems

  /** No gateway makes a step run although a required dependency did not succeed. */
  ghost predicate NeverRunsBlocked(plan: Plan) {
    forall ok: Oracle, i, j :: RunsBlocked(Run(plan, ok), i, j) ==> false
  }

  /** Step i of the traces ran although its dependency, step j, was unmet. */
  predicate RunsBlocked(tr: seq<Trace>, i: int, j: int) {
    && 0 <= i < |tr| && 0 <= j < |tr|
    && tr[i].outcome.Executed? && tr[j].call.id in tr[i].call.deps && Blocks(tr[j])
  }

  /** `c` waits for `d` and `d` for `a`, both required, but `c` not for `a`. */
  predicate Awaits(c: Call, d: Call, a: Call) {
    d.id in c.deps && a.id in d.deps && d.required && a.required && a.id !in c.deps
  }

  /** A required dependency that waits for a required step stands before its
      dependent, unless the dependent waits for that step as well. */
  ghost predicate SafeOrder(plan: Plan) {
    forall c, d, a :: c in plan && d in plan && a in plan && Awaits(c, d, a) ==> !Before(plan, c.id, d.id)
  }

  // ----- the order is sufficient, for every plan -----

  /** Under that order an executed step has no unmet required dependency. */
  lemma {:induction false} SafeOrderRunsNoneBlocked(plan: Plan, ok: Oracle, i: nat, j: nat)
    requires DistinctIds(plan) && SafeOrder(plan) && i < |Run(plan, ok)| && j < |Run(plan, ok)|
    ensures !RunsBlocked(Run(plan, ok), i, j)
    decreases j
  {
    var tr := Run(plan, ok);
    RunFaithful(plan, ok);
    if RunsBlocked(tr, i, j) {
      var m := BlockerOfLateSkip(plan, ok, tr, i, j);
      SafeOrderRunsNoneBlocked(plan, ok, i, m);
    }
  }

  /** An unmet dependency of an executed step was blocked by an earlier trace, a
      required dependency of both. */
  lemma BlockerOfLateSkip(plan: Plan, ok: Oracle, tr: seq<Trace>, i: nat, j: nat) returns (m: nat)
    requires DistinctIds(plan) && SafeOrder(plan) && Faithful(plan, ok, tr) && RunsBlocked(tr, i, j)
    ensures m < j && RunsBlocked(tr, i, m)
  {
    assert Justified(plan, ok, tr, i) && Justified(plan, ok, tr, j);
    assert DependencyMet(plan, tr, i, tr[j].call.id);
    var k :| 0 <= k < i && tr[k].call.id == tr[j].call.id && (Blocks(tr[k]) ==> LateSkip(plan, tr[k], tr[i]));
    OneTrace(plan, ok, tr, j, k);
    m :| BlockedBy(tr, j, m);
    assert Justified(plan, ok, tr, m);
  }

  lemma SafeOrderIsSufficient(plan: Plan)
    requires DistinctIds(plan) && SafeOrder(plan)
    ensures NeverRunsBlocked(plan)
  {
    forall ok: Oracle, i: int, j: int | RunsBlocked(Run(plan, ok), i, j)
      ensures false
    {
      SafeOrderRunsNoneBlocked(plan, ok, i, j);
    }
  }

  // ----- skip passes -----

  lemma {:induction false} SkipPassSkips(cs: seq<Call>, w: nat, tr: seq<Trace>, c: Call)
    requires c in cs && IsBlocked(c, Blocking(tr))
    ensures Trace(c, DependencyFailed, w) in SkipPass(cs, w, tr)
    decreases |cs|
  {
    var tr' := if IsBlocked(cs[0], Blocking(tr)) then tr + [Trace(cs[0], DependencyFailed, w)] else tr;
    DoneGrows(tr, tr');
    if c == cs[0] {
      SkipPassAppends(cs[1..], w, tr');
      assert SkipPass(cs, w, tr)[|tr|] == tr'[|tr|];
    } else {
      SkipPassSkips(cs[1..], w, tr', c);
    }
  }

  /** A call none of whose dependencies blocks when its turn comes. */
  lemma {:induction false} SkipPassSpares(cs: seq<Call>, w: nat, tr: seq<Trace>, i: nat)
    requires i < |cs| && DistinctIds(cs) && cs[i].id !in Done(tr)
    requires forall e :: e in cs[i].deps ==> e !in Blocking(tr) && e !in Ids(cs[..i])
    ensures cs[i].id !in Done(SkipPass(cs, w, tr))
    decreases |cs|
  {
    var c := cs[i];
    var t0 := Trace(cs[0], DependencyFailed, w);
    var tr' := if IsBlocked(cs[0], Blocking(tr)) then tr + [t0] else tr;
    if i == 0 {
      SkipPassFirst(cs, w, tr);
      SkipPassAppends(cs[1..], w, tr);
      forall t | t in SkipPass(cs[1..], w, tr)
        ensures t.call.id != c.id
      {
        var m :| 0 <= m < |SkipPass(cs[1..], w, tr)| && SkipPass(cs[1..], w, tr)[m] == t;
        if m < |tr| {
          TracedIsDone(tr, m);
        }
      }
    } else {
      assert cs[0] in cs[..i];
      assert forall t :: t in tr' ==> t in tr || t == t0;
      assert cs[1..][..i - 1] == cs[1..i];
      forall e | e in c.deps
        ensures e !in Blocking(tr') && e !in Ids(cs[1..][..i - 1])
      {
        assert forall x :: x in cs[1..i] ==> x in cs[..i];
      }
      SkipPassSpares(cs[1..], w, tr', i - 1);
    }
  }

  lemma BlockingIsDone(tr: seq<Trace>, x: StepId)
    requires x !in Done(tr)
    ensures x !in Blocking(tr)
  {
  }

  /** In the list of unfinished calls `c` stands at some position before `d`. */
  lemma LatePosition(plan: Plan, done: set<StepId>, c: Call, d: Call) returns (i: nat)
    requires DistinctIds(plan) && c in plan && d in plan && Before(plan, c.id, d.id)
    requires c.id !in done && d.id !in done
    ensures var cs := Unfinished(plan, done); i < |cs| && cs[i] == c && d.id !in Ids(cs[..i])
  {
    var cs := Unfinished(plan, done);
    UnfinishedAt(plan, done);
    i :| 0 <= i < |cs| && cs[i] == c;
    forall e | e in cs[..i]
      ensures e.id != d.id
    {
      var m :| 0 <= m < i && cs[m] == e;
      if e.id == d.id {
        NotBeforeBoth(plan, done, m, i);
      }
    }
  }

  /** The list of unfinished calls has the plan's order. */
  lemma NotBeforeBoth(plan: Plan, done: set<StepId>, m: nat, i: nat)
    requires DistinctIds(plan) && m < i < |Unfinished(plan, done)|
    ensures !Before(plan, Unfinished(plan, done)[i].id, Unfinished(plan, done)[m].id)
  {
    var a, b := UnfinishedOrder(plan, done, m, i);
  }

  /** A pass that skips `d` after it has looked at `c` leaves `c` pending, when the
      other dependencies of `c` are finished and do not block. */
  lemma LateSkipPass(plan: Plan, w: nat, tr: seq<Trace>, c: Call, d: Call)
    requires DistinctIds(plan) && c in plan && d in plan && Before(plan, c.id, d.id)
    requires forall e :: e in c.deps && e != d.id ==> e in Done(tr) && e !in Blocking(tr)
    requires c.id !in Done(tr) && d.id !in Done(tr) && IsBlocked(d, Blocking(tr))
    ensures Trace(d, DependencyFailed, w) in SkipPass(Unfinished(plan, Done(tr)), w, tr)
    ensures c.id !in Done(SkipPass(Unfinished(plan, Done(tr)), w, tr))
  {
    var cs := Unfinished(plan, Done(tr));
    var i := LatePosition(plan, Done(tr), c, d);
    UnfinishedAt(plan, Done(tr));
    UnfinishedDistinct(plan, Done(tr));
    SkipPassSkips(cs, w, tr, d);
    BlockingIsDone(tr, d.id);
    forall e | e in c.deps
      ensures e !in Blocking(tr) && e !in Ids(cs[..i])
    {
      if e != d.id {
        DoneIsNotAhead(cs, i, Done(tr), e);
      }
    }
    SkipPassSpares(cs, w, tr, i);
  }

  lemma DoneIsNotAhead(cs: seq<Call>, i: nat, done: set<StepId>, e: StepId)
    requires i <= |cs| && (forall x :: x in cs ==> x.id !in done) && e in done
    ensures e !in Ids(cs[..i])
  {
    forall x | x in cs[..i]
      ensures x.id != e
    {
      assert x in cs;
    }
  }

  lemma ReadyRuns(plan: Plan, ok: Oracle, w: nat, tr: seq<Trace>, c: Call)
    requires c in plan
    requires
      var skipped := SkipPass(Unfinished(plan, Done(tr)), w, tr);
      c.id !in Done(skipped) && IsReady(c, Done(skipped))
    ensures SkipPass(Unfinished(plan, Done(tr)), w, tr) <= Wave(plan, ok, w, tr)
    ensures Trace(c, Executed(ok(c.id)), w) in Wave(plan, ok, w, tr)
  {
    var skipped := SkipPass(Unfinished(plan, Done(tr)), w, tr);
    var pending := Unfinished(plan, Done(skipped));
    UnfinishedAt(plan, Done(skipped));
    ReadyAt(pending, Done(skipped));
    var ready := Ready(pending, Done(skipped));
    assert c in ready;
    var m :| 0 <= m < |ready| && ready[m] == c;
    assert (skipped + ExecutePass(ready, ok, w))[|skipped| + m] == Trace(c, Executed(ok(c.id)), w);
  }

  // ----- a run up to the one failure -----

  /** The gateway that fails at one step only. */
  function FailsAt(a: StepId): Oracle {
    x => x != a
  }

  /** Only successful executions so far. */
  ghost predicate Clean(tr: seq<Trace>) {
    forall t :: t in tr ==> t.outcome == Executed(true)
  }

  lemma WaveOfClean(plan: Plan, ok: Oracle, w: nat, tr: seq<Trace>)
    requires Clean(tr)
    ensures var cs := Unfinished(plan, Done(tr)); var ready := Ready(cs, Done(tr));
      Wave(plan, ok, w, tr) == if ready != [] then tr + ExecutePass(ready, ok, w) else tr + CyclePass(cs, w)
  {
    assert Blocking(tr) == {};
    SkipPassIdle(Unfinished(plan, Done(tr)), w, tr);
  }

  /** With nothing ready after a clean start, a cycle is reported. */
  lemma StuckMarks(plan: Plan, ok: Oracle, w: nat, tr: seq<Trace>)
    requires Clean(tr) && Unfinished(plan, Done(tr)) != [] && Ready(Unfinished(plan, Done(tr)), Done(tr)) == []
    requires RunFrom(plan, ok, w, tr) == Run(plan, ok)
    ensures !NoCycleMarks(Run(plan, ok))
  {
    var next := Wave(plan, ok, w, tr);
    WaveOfClean(plan, ok, w, tr);
    WaveProgress(plan, ok, w, tr);
    RunFromExtends(plan, ok, w + 1, next);
    PrefixIn(next, Run(plan, ok));
    assert next[|tr|] == Trace(Unfinished(plan, Done(tr))[0], DependencyCycle, w);
    assert next[|tr|] in next;
  }

  // ----- waves and chains of dependencies -----

  ghost predicate WalkFrom(plan: Plan, p: seq<StepId>, x: StepId) {
    Walk(plan, p) && p[0] == x
  }

  ghost predicate HasWalk(plan: Plan, x: StepId, n: nat) {
    exists p :: WalkFrom(plan, p, x) && |p| == n
  }

  /** What has no trace before wave `w` waits along a chain of more than `w` steps. */
  ghost predicate LateAreDeep(plan: Plan, w: nat, tr: seq<Trace>) {
    forall c :: c in plan && c.id !in Done(tr) ==> HasWalk(plan, c.id, w + 1)
  }

  /** What has a trace before wave `w` waits along chains of at most `w` steps only. */
  ghost predicate EarlyAreShallow(plan: Plan, w: nat, tr: seq<Trace>) {
    forall p :: Walk(plan, p) && p[0] in Done(tr) ==> |p| <= w
  }

  lemma BeforeFirstWave(plan: Plan)
    ensures LateAreDeep(plan, 0, []) && EarlyAreShallow(plan, 0, [])
  {
    forall c | c in plan
      ensures HasWalk(plan, c.id, 1)
    {
      assert WalkFrom(plan, [c.id], c.id);
    }
  }

  lemma WalkLonger(plan: Plan, c: Call, y: StepId, n: nat)
    requires c in plan && y in c.deps && HasWalk(plan, y, n)
    ensures HasWalk(plan, c.id, n + 1)
  {
    var p :| WalkFrom(plan, p, y) && |p| == n;
    var q := [c.id] + p;
    assert Edge(plan, c.id, y);
    forall i, j | 0 <= i && j == i + 1 && j < |q|
      ensures Edge(plan, q[i], q[j])
    {
      if i > 0 {
        var k := i - 1;
        assert Edge(plan, p[k], p[k + 1]);
      }
    }
    assert WalkFrom(plan, q, c.id);
  }

  /** A call that is not ready waits for one that has no trace yet. */
  lemma LateStep(plan: Plan, w: nat, tr: seq<Trace>, c: Call)
    requires KnownDeps(plan) && LateAreDeep(plan, w, tr) && c in plan && !IsReady(c, Done(tr))
    ensures HasWalk(plan, c.id, w + 2)
  {
    var y :| y in c.deps && y !in Done(tr);
    assert y in Ids(plan);
    var b :| b in plan && b.id == y;
    WalkLonger(plan, c, y, w + 1);
  }

  lemma EarlyStep(plan: Plan, w: nat, tr: seq<Trace>, r: Call, p: seq<StepId>)
    requires DistinctIds(plan) && EarlyAreShallow(plan, w, tr)
    requires r in plan && IsReady(r, Done(tr)) && WalkFrom(plan, p, r.id)
    ensures |p| <= w + 1
  {
    if |p| > 1 {
      WalkStep(plan, p, 0, 1);
      var c :| c in plan && c.id == p[0] && p[1] in c.deps;
      SameId(plan, c, r);
      WalkTail(plan, p);
      assert p[1..][0] == p[1];
    }
  }

  /** A wave that executes what is ready keeps both. */
  lemma WaveKeepsDepths(plan: Plan, ok: Oracle, w: nat, tr: seq<Trace>)
    requires DistinctIds(plan) && KnownDeps(plan) && LateAreDeep(plan, w, tr) && EarlyAreShallow(plan, w, tr)
    ensures var next := tr + ExecutePass(Ready(Unfinished(plan, Done(tr)), Done(tr)), ok, w);
      LateAreDeep(plan, w + 1, next) && EarlyAreShallow(plan, w + 1, next)
  {
    var cs := Unfinished(plan, Done(tr));
    var ready := Ready(cs, Done(tr));
    var next := tr + ExecutePass(ready, ok, w);
    UnfinishedAt(plan, Done(tr));
    ReadyAt(cs, Done(tr));
    DoneAfterPass(tr, ready, ok, w);
    forall c | c in plan && c.id !in Done(next)
      ensures HasWalk(plan, c.id, w + 2)
    {
      LateStep(plan, w, tr, c);
    }
    forall p | Walk(plan, p) && p[0] in Done(next)
      ensures |p| <= w + 1
    {
      if p[0] !in Done(tr) {
        var r :| r in ready && r.id == p[0];
        EarlyStep(plan, w, tr, r, p);
      }
    }
  }

  lemma DoneAfterPass(tr: seq<Trace>, ready: seq<Call>, ok: Oracle, w: nat)
    ensures Done(tr + ExecutePass(ready, ok, w)) == Done(tr) + Ids(ready)
  {
    var more := ExecutePass(ready, ok, w);
    forall x
      ensures x in Done(tr + more) <==> x in Done(tr) || x in Ids(ready)
    {
      if x in Ids(ready) {
        var c :| c in ready && c.id == x;
        var k :| 0 <= k < |ready| && ready[k] == c;
        assert more[k] in tr + more && more[k].call.id == x;
      }
      if x in Done(tr) {
        var t :| t in tr && t.call.id == x;
        assert t in tr + more;
      }
      if x in Done(tr + more) {
        var t :| t in tr + more && t.call.id == x;
        if t !in tr {
          var k :| 0 <= k < |more| && more[k] == t;
          assert ready[k] in ready;
        }
      }
    }
  }

  /** Every chain from `x` is matched by one from `a` that is no shorter. */
  ghost predicate NoDeeper(plan: Plan, x: StepId, a: StepId) {
    forall p :: WalkFrom(plan, p, x) ==> exists q :: WalkFrom(plan, q, a) && |q| >= |p|
  }

  /** So a step that waits no longer than `a` has its trace when `a` has. */
  lemma NoDeeperIsDone(plan: Plan, w: nat, tr: seq<Trace>, e: StepId, a: StepId)
    requires LateAreDeep(plan, w, tr) && EarlyAreShallow(plan, w, tr)
    requires e in Ids(plan) && a in Done(tr) && NoDeeper(plan, e, a)
    ensures e in Done(tr)
  {
    if e !in Done(tr) {
      LateIsMatched(plan, w, tr, e, a);
    }
  }

  lemma LateIsMatched(plan: Plan, w: nat, tr: seq<Trace>, e: StepId, a: StepId)
    requires LateAreDeep(plan, w, tr) && e in Ids(plan) && e !in Done(tr) && NoDeeper(plan, e, a)
    ensures exists q :: WalkFrom(plan, q, a) && |q| > w
  {
    var x :| x in plan && x.id == e;
    var p :| WalkFrom(plan, p, e) && |p| == w + 1;
  }

  // ----- the wave in which the step fails -----

  lemma {:induction false} UpToFailure(plan: Plan, a: Call, w: nat, tr: seq<Trace>)
    returns (w': nat, tr': seq<Trace>)
    requires DistinctIds(plan) && KnownDeps(plan) && a in plan && NoCycleMarks(Run(plan, FailsAt(a.id)))
    requires LateAreDeep(plan, w, tr) && EarlyAreShallow(plan, w, tr)
    requires Clean(tr) && Faithful(plan, FailsAt(a.id), tr) && a.id !in Done(tr)
    requires RunFrom(plan, FailsAt(a.id), w, tr) == Run(plan, FailsAt(a.id))
    ensures Clean(tr') && Faithful(plan, FailsAt(a.id), tr') && a.id !in Done(tr')
    ensures RunFrom(plan, FailsAt(a.id), w', tr') == Run(plan, FailsAt(a.id))
    ensures a in Ready(Unfinished(plan, Done(tr')), Done(tr'))
    ensures LateAreDeep(plan, w', tr') && EarlyAreShallow(plan, w', tr')
    decreases Ids(plan) - Done(tr)
  {
    var ok := FailsAt(a.id);
    UnfinishedAt(plan, Done(tr));
    if Ready(Unfinished(plan, Done(tr)), Done(tr)) == [] {
      StuckMarks(plan, ok, w, tr);
    }
    if a in Ready(Unfinished(plan, Done(tr)), Done(tr)) {
      w', tr' := w, tr;
    } else {
      WaveProgress(plan, ok, w, tr);
      WaveFaithful(plan, ok, w, tr);
      CleanWave(plan, a, w, tr);
      WaveOfClean(plan, ok, w, tr);
      WaveKeepsDepths(plan, ok, w, tr);
      w', tr' := UpToFailure(plan, a, w + 1, Wave(plan, ok, w, tr));
    }
  }

  lemma CleanWave(plan: Plan, a: Call, w: nat, tr: seq<Trace>)
    requires DistinctIds(plan) && a in plan && Clean(tr) && a.id !in Done(tr)
    requires Ready(Unfinished(plan, Done(tr)), Done(tr)) != []
    requires a !in Ready(Unfinished(plan, Done(tr)), Done(tr))
    ensures Clean(Wave(plan, FailsAt(a.id), w, tr)) && a.id !in Done(Wave(plan, FailsAt(a.id), w, tr))
  {
    var ok, ready := FailsAt(a.id), Ready(Unfinished(plan, Done(tr)), Done(tr));
    WaveOfClean(plan, ok, w, tr);
    UnfinishedAt(plan, Done(tr));
    ReadyAt(Unfinished(plan, Done(tr)), Done(tr));
    var more := ExecutePass(ready, ok, w);
    forall r | r in ready
      ensures r.id != a.id
    {
      OtherCall(plan, ready, r, a);
    }
    forall t | t in more
      ensures t.outcome == Executed(true) && t.call.id != a.id
    {
      var k :| 0 <= k < |ready| && more[k] == t;
      assert ready[k] in ready;
    }
    assert forall t :: t in tr + more <==> t in tr || t in more;
  }

  lemma OtherCall(plan: Plan, some: seq<Call>, r: Call, a: Call)
    requires DistinctIds(plan) && r in plan && a in plan && r in some && a !in some
    ensures r.id != a.id
  {
    var i :| 0 <= i < |plan| && plan[i] == r;
    var j :| 0 <= j < |plan| && plan[j] == a;
    assert i != j;
  }

  /** The wave in which the failing step runs. */
  ghost predicate FailedNow(plan: Plan, a: Call, tr: seq<Trace>) {
    && Faithful(plan, FailsAt(a.id), tr)
    && (forall t :: t in tr ==> t.call in plan && t.outcome == Executed(t.call.id != a.id))
    && exists t :: t in tr && t.call == a
  }

  lemma FailureWave(plan: Plan, a: Call, w: nat, tr: seq<Trace>)
    requires DistinctIds(plan) && a in plan && Clean(tr) && Faithful(plan, FailsAt(a.id), tr) && a.id !in Done(tr)
    requires a in Ready(Unfinished(plan, Done(tr)), Done(tr))
    ensures FailedNow(plan, a, Wave(plan, FailsAt(a.id), w, tr))
    ensures Trace(a, Executed(false), w) in Wave(plan, FailsAt(a.id), w, tr)
  {
    var ok, cs := FailsAt(a.id), Unfinished(plan, Done(tr));
    var ready := Ready(cs, Done(tr));
    var more := ExecutePass(ready, ok, w);
    WaveOfClean(plan, ok, w, tr);
    WaveFaithful(plan, ok, w, tr);
    UnfinishedAt(plan, Done(tr));
    ReadyAt(cs, Done(tr));
    assert forall t :: t in tr + more <==> t in tr || t in more;
    forall t | t in tr
      ensures t.call in plan && t.call.id != a.id
    {
      var k :| 0 <= k < |tr| && tr[k] == t;
      assert Justified(plan, ok, tr, k);
    }
    forall r | r in ready
      ensures Trace(r, Executed(ok(r.id)), w) in more
    {
      var k :| 0 <= k < |ready| && ready[k] == r;
      assert more[k] == Trace(r, Executed(ok(r.id)), w);
    }
    forall t | t in more
      ensures t.call in plan && t.outcome == Executed(t.call.id != a.id)
    {
      var k :| 0 <= k < |ready| && more[k] == t;
      assert ready[k] in ready;
    }
  }

  /** While everything was executed, a traced call has each of its dependencies
      traced, and not in its way. */
  lemma DependencyRan(plan: Plan, a: Call, tr: seq<Trace>, i: nat, e: StepId) returns (j: nat)
    requires FailedNow(plan, a, tr) && i < |tr| && e in tr[i].call.deps
    ensures j < |tr| && tr[j].call.id == e && tr[j].call in plan && !Blocks(tr[j])
  {
    assert tr[i] in tr && Justified(plan, FailsAt(a.id), tr, i);
    assert DependencyMet(plan, tr, i, e);
    j :| 0 <= j < i && tr[j].call.id == e && (Blocks(tr[j]) ==> LateSkip(plan, tr[j], tr[i]));
    assert tr[j] in tr;
  }

  lemma FailedBlocks(plan: Plan, a: Call, tr: seq<Trace>, j: nat)
    requires DistinctIds(plan) && FailedNow(plan, a, tr) && a in plan && a.required
    requires j < |tr| && tr[j].call.id == a.id
    ensures Blocks(tr[j])
  {
    assert tr[j] in tr;
    SameId(plan, tr[j].call, a);
  }

  /** What depends on the failed step has no trace yet, nor has what depends on that. */
  lemma NotYetTraced(plan: Plan, a: Call, tr: seq<Trace>, d: Call)
    requires DistinctIds(plan) && FailedNow(plan, a, tr) && a in plan && a.required && d in plan && a.id in d.deps
    ensures d.id !in Done(tr)
  {
    forall t | t in tr
      ensures t.call.id != d.id
    {
      if t.call.id == d.id {
        SameId(plan, t.call, d);
        var i :| 0 <= i < |tr| && tr[i] == t;
        var j := DependencyRan(plan, a, tr, i, a.id);
        FailedBlocks(plan, a, tr, j);
      }
    }
  }

  lemma DependentNotTraced(plan: Plan, a: Call, tr: seq<Trace>, d: Call, c: Call)
    requires DistinctIds(plan) && FailedNow(plan, a, tr) && d.id !in Done(tr) && c in plan && d.id in c.deps
    ensures c.id !in Done(tr)
  {
    forall t | t in tr
      ensures t.call.id != c.id
    {
      if t.call.id == c.id {
        SameId(plan, t.call, c);
        var i :| 0 <= i < |tr| && tr[i] == t;
        var j := DependencyRan(plan, a, tr, i, d.id);
        TracedIsDone(tr, j);
      }
    }
  }

  lemma OnlyFailureBlocks(plan: Plan, a: Call, tr: seq<Trace>)
    requires FailedNow(plan, a, tr) && a.required
    ensures Blocking(tr) == {a.id}
  {
    var t :| t in tr && t.call == a;
    assert Blocks(t);
  }

  // ----- what the failure spoils -----

  /** `c` stands before its required dependency `d`, which waits for the required
      step `a`, and `c` does not wait for that. */
  ghost predicate BreaksOrder(plan: Plan, c: Call, d: Call, a: Call) {
    c in plan && d in plan && a in plan && Awaits(c, d, a) && Before(plan, c.id, d.id)
  }

  /** The other dependencies of `c` wait no longer than `a` does. */
  ghost predicate OthersInTime(plan: Plan, c: Call, d: Call, a: Call) {
    forall e :: e in c.deps && e != d.id ==> NoDeeper(plan, e, a.id)
  }

  /** Outside the order the promise fails.  In an acyclic plan let `c`, `d` and `a`
      break the order, and let no chain of dependencies behind another dependency
      of `c` be longer than the longest behind `a`.  If the gateway fails exactly
      at `a`, then in the wave after it `d` is skipped and `c` runs. */
  lemma UnsafeOrderRunsBlocked(plan: Plan, c: Call, d: Call, a: Call) returns (w: nat)
    requires DistinctIds(plan) && KnownDeps(plan) && Acyclic(plan)
    requires BreaksOrder(plan, c, d, a) && OthersInTime(plan, c, d, a)
    ensures var tr := Run(plan, FailsAt(a.id));
      && Trace(a, Executed(false), w) in tr && Trace(d, DependencyFailed, w + 1) in tr
      && Trace(c, Executed(FailsAt(a.id)(c.id)), w + 1) in tr
  {
    var ok := FailsAt(a.id);
    AcyclicNeverMarked(plan, ok);
    var t0;
    BeforeFirstWave(plan);
    w, t0 := UpToFailure(plan, a, 0, []);
    FailureWave(plan, a, w, t0);
    OthersAreDone(plan, c, d, a, w, t0);
    UnfinishedAt(plan, Done(t0));
    WaveProgress(plan, ok, w, t0);
    SpoiledWave(plan, c, d, a, w + 1, Wave(plan, ok, w, t0));
  }

  lemma OthersAreDone(plan: Plan, c: Call, d: Call, a: Call, w: nat, tr: seq<Trace>)
    requires DistinctIds(plan) && KnownDeps(plan) && c in plan && a in plan && OthersInTime(plan, c, d, a)
    requires Clean(tr) && a in Ready(Unfinished(plan, Done(tr)), Done(tr))
    requires LateAreDeep(plan, w, tr) && EarlyAreShallow(plan, w, tr)
    ensures forall e :: e in c.deps && e != d.id ==> e in Done(Wave(plan, FailsAt(a.id), w, tr))
  {
    var ok, ready := FailsAt(a.id), Ready(Unfinished(plan, Done(tr)), Done(tr));
    WaveOfClean(plan, ok, w, tr);
    WaveKeepsDepths(plan, ok, w, tr);
    DoneAfterPass(tr, ready, ok, w);
    assert a.id in Ids(ready);
    forall e | e in c.deps && e != d.id
      ensures e in Done(tr + ExecutePass(ready, ok, w))
    {
      NoDeeperIsDone(plan, w + 1, tr + ExecutePass(ready, ok, w), e, a.id);
    }
  }

  lemma SpoiledWave(plan: Plan, c: Call, d: Call, a: Call, w: nat, tr: seq<Trace>)
    requires DistinctIds(plan) && FailedNow(plan, a, tr) && BreaksOrder(plan, c, d, a)
    requires forall e :: e in c.deps && e != d.id ==> e in Done(tr)
    requires RunFrom(plan, FailsAt(a.id), w, tr) == Run(plan, FailsAt(a.id))
    ensures forall t :: t in tr ==> t in Run(plan, FailsAt(a.id))
    ensures Trace(d, DependencyFailed, w) in Run(plan, FailsAt(a.id))
    ensures Trace(c, Executed(FailsAt(a.id)(c.id)), w) in Run(plan, FailsAt(a.id))
  {
    var ok := FailsAt(a.id);
    NotYetTraced(plan, a, tr, d);
    DependentNotTraced(plan, a, tr, d, c);
    OnlyFailureBlocks(plan, a, tr);
    LateSkipPass(plan, w, tr, c, d);
    var skipped := SkipPass(Unfinished(plan, Done(tr)), w, tr);
    SkipPassAppends(Unfinished(plan, Done(tr)), w, tr);
    DoneGrows(tr, skipped);
    ReadyRuns(plan, ok, w, tr, c);
    UnfinishedAt(plan, Done(tr));
    var next := Wave(plan, ok, w, tr);
    WaveProgress(plan, ok, w, tr);
    WaveExtends(plan, ok, w, tr);
    RunFromExtends(plan, ok, w + 1, next);
    PrefixIn(skipped, next);
    PrefixIn(tr, next);
    PrefixIn(next, Run(plan, ok));
  }

  /** If something breaks the order at all, something does in time. */
  ghost predicate BreaksInTime(plan: Plan) {
    (exists c, d, a :: BreaksOrder(plan, c, d, a)) ==>
      exists c, d, a :: BreaksOrder(plan, c, d, a) && OthersInTime(plan, c, d, a)
  }

  /** For acyclic plans of that kind the order is exactly what keeps every gateway
      from making a step run on an unmet required dependency. */
  lemma SafeOrderExactly(plan: Plan)
    requires DistinctIds(plan) && KnownDeps(plan) && Acyclic(plan) && BreaksInTime(plan)
    ensures SafeOrder(plan) <==> NeverRunsBlocked(plan)
  {
    if SafeOrder(plan) {
      SafeOrderIsSufficient(plan);
    } else {
      var c', d', a' :| c' in plan && d' in plan && a' in plan && Awaits(c', d', a') && Before(plan, c'.id, d'.id);
      assert BreaksOrder(plan, c', d', a');
      var c, d, a :| BreaksOrder(plan, c, d, a) && OthersInTime(plan, c, d, a);
      UnsafeIsBlocked(plan, c, d, a);
    }
  }

  lemma UnsafeIsBlocked(plan: Plan, c: Call, d: Call, a: Call)
    requires DistinctIds(plan) && KnownDeps(plan) && Acyclic(plan)
    requires BreaksOrder(plan, c, d, a) && OthersInTime(plan, c, d, a)
    ensures !NeverRunsBlocked(plan)
  {
    var w := UnsafeOrderRunsBlocked(plan, c, d, a);
    var tr := Run(plan, FailsAt(a.id));
    var i :| 0 <= i < |tr| && tr[i] == Trace(c, Executed(FailsAt(a.id)(c.id)), w + 1);
    var j :| 0 <= j < |tr| && tr[j] == Trace(d, DependencyFailed, w + 1);
    assert RunsBlocked(tr, i, j);
  }
}
