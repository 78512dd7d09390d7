/** What every run of the wave scheduler guarantees, for plans in any order. */
module WaveTheorems {
  import opened ToolPlan
  import opened WaveRun

  /** `t` was skipped in the very pass after which `s` was executed, and the
      plan lists it after `s`. */
  ghost predicate LateSkip(plan: Plan, t: Trace, s: Trace) {
    t.outcome == DependencyFailed && t.wave == s.wave && Before(plan, s.call.id, t.call.id)
  }

  /** A dependency of the executed step `tr[i]`: traced strictly earlier, and
      standing in its way only as a late skip. */
  ghost predicate DependencyMet(plan: Plan, tr: seq<Trace>, i: nat, d: StepId)
    requires i < |tr|
  {
    exists j :: 0 <= j < i && tr[j].call.id == d && tr[j].outcome != DependencyCycle
             && (Blocks(tr[j]) ==> LateSkip(plan, tr[j], tr[i]))
  }

  /** A dependency of `tr[i]` that blocked it. */
  ghost predicate BlockedBy(tr: seq<Trace>, i: nat, j: nat)
    requires i < |tr|
  {
    j < i && tr[j].call.id in tr[i].call.deps && Blocks(tr[j]) && tr[j].outcome != DependencyCycle
  }

  /** A dependency of `tr[i]` that was never resolved. */
  ghost predicate Unresolved(tr: seq<Trace>, i: nat, d: StepId)
    requires i < |tr|
  {
    forall j :: 0 <= j < i && tr[j].call.id == d ==> tr[j].outcome == DependencyCycle
  }

  ghost predicate Justified(plan: Plan, ok: Oracle, tr: seq<Trace>, i: nat)
    requires i < |tr|
  {
    && tr[i].call in plan
    && (forall j :: 0 <= j < i ==> tr[j].call.id != tr[i].call.id)
    && (forall j :: 0 <= j < i && tr[j].outcome == DependencyCycle ==> tr[i].outcome == DependencyCycle)
    && match tr[i].outcome
       case Executed(o) =>
         o == ok(tr[i].call.id) && forall d :: d in tr[i].call.deps ==> DependencyMet(plan, tr, i, d)
       case DependencyFailed => exists j :: BlockedBy(tr, i, j)
       case DependencyCycle => exists d :: d in tr[i].call.deps && Unresolved(tr, i, d)
  }

  ghost predicate Faithful(plan: Plan, ok: Oracle, tr: seq<Trace>) {
    forall i :: 0 <= i < |tr| ==> Justified(plan, ok, tr, i)
  }

  ghost predicate NoCycleMarks(tr: seq<Trace>) {
    forall t :: t in tr ==> t.outcome != DependencyCycle
  }

  // ----- appending keeps what is already justified -----

  lemma JustifiedPrefix(plan: Plan, ok: Oracle, tr: seq<Trace>, tr': seq<Trace>, i: nat)
    requires i < |tr| <= |tr'| && tr[..i + 1] == tr'[..i + 1]
    requires Justified(plan, ok, tr, i)
    ensures Justified(plan, ok, tr', i)
  {
    assert forall j :: 0 <= j <= i ==> tr'[j] == tr'[..i + 1][j] == tr[j];
    match tr[i].outcome
    case Executed(_) =>
      forall d | d in tr'[i].call.deps
        ensures DependencyMet(plan, tr', i, d)
      {
        assert DependencyMet(plan, tr, i, d);
      }
    case DependencyFailed =>
      var j :| BlockedBy(tr, i, j);
      assert BlockedBy(tr', i, j);
    case DependencyCycle =>
      var d :| d in tr[i].call.deps && Unresolved(tr, i, d);
      assert Unresolved(tr', i, d);
  }

  lemma FaithfulExtends(plan: Plan, ok: Oracle, tr: seq<Trace>, tr': seq<Trace>)
    requires tr <= tr' && Faithful(plan, ok, tr)
    requires forall i :: |tr| <= i < |tr'| ==> Justified(plan, ok, tr', i)
    ensures Faithful(plan, ok, tr')
  {
    forall i | 0 <= i < |tr|
      ensures Justified(plan, ok, tr', i)
    {
      JustifiedPrefix(plan, ok, tr, tr', i);
    }
  }

  // ----- order and distinctness of the filtered lists -----

  lemma {:induction false} UnfinishedDistinct(cs: seq<Call>, done: set<StepId>)
    requires DistinctIds(cs)
    ensures DistinctIds(Unfinished(cs, done))
  {
    if cs != [] {
      UnfinishedDistinct(cs[1..], done);
      UnfinishedAt(cs[1..], done);
      var rest := Unfinished(cs[1..], done);
      forall k | 0 <= k < |rest|
        ensures rest[k].id != cs[0].id
      {
        assert rest[k] in cs[1..];
      }
    }
  }

  lemma {:induction false} ReadyDistinct(cs: seq<Call>, done: set<StepId>)
    requires DistinctIds(cs)
    ensures DistinctIds(Ready(cs, done))
  {
    if cs != [] {
      ReadyDistinct(cs[1..], done);
      ReadyAt(cs[1..], done);
      var rest := Ready(cs[1..], done);
      forall k | 0 <= k < |rest|
        ensures rest[k].id != cs[0].id
      {
        assert rest[k] in cs[1..];
      }
    }
  }

  /** Filtering keeps plan order: where two pending calls stand in the plan. */
  lemma {:induction false} UnfinishedOrder(cs: seq<Call>, done: set<StepId>, i: nat, k: nat)
      returns (a: nat, b: nat)
    requires i < k < |Unfinished(cs, done)|
    ensures a < b < |cs| && cs[a] == Unfinished(cs, done)[i] && cs[b] == Unfinished(cs, done)[k]
  {
    if cs[0].id in done {
      a, b := UnfinishedOrder(cs[1..], done, i, k);
      a, b := a + 1, b + 1;
    } else if i > 0 {
      a, b := UnfinishedOrder(cs[1..], done, i - 1, k - 1);
      a, b := a + 1, b + 1;
    } else {
      b := UnfinishedWhere(cs[1..], done, k - 1);
      a, b := 0, b + 1;
    }
  }

  lemma UnfinishedWhere(cs: seq<Call>, done: set<StepId>, k: nat) returns (b: nat)
    requires k < |Unfinished(cs, done)|
    ensures b < |cs| && cs[b] == Unfinished(cs, done)[k]
  {
    UnfinishedAt(cs, done);
    assert Unfinished(cs, done)[k] in Unfinished(cs, done);
    b :| 0 <= b < |cs| && cs[b] == Unfinished(cs, done)[k];
  }

  lemma TracedIsDone(tr: seq<Trace>, j: nat)
    requires j < |tr|
    ensures tr[j].call.id in Done(tr)
    ensures Blocks(tr[j]) ==> tr[j].call.id in Blocking(tr)
  {
    assert tr[j] in tr;
  }

  // ----- the skip pass -----

  lemma {:induction false} SkipPassFaithful(plan: Plan, ok: Oracle, cs: seq<Call>, w: nat, tr: seq<Trace>)
    requires Faithful(plan, ok, tr) && NoCycleMarks(tr)
    requires DistinctIds(cs)
    requires forall c :: c in cs ==> c in plan && c.id !in Done(tr)
    ensures Faithful(plan, ok, SkipPass(cs, w, tr)) && NoCycleMarks(SkipPass(cs, w, tr))
    decreases |cs|
  {
    if cs != [] {
      var t := Trace(cs[0], DependencyFailed, w);
      if IsBlocked(cs[0], Blocking(tr)) {
        var tr' := tr + [t];
        var d :| d in cs[0].deps && d in Blocking(tr);
        var b :| b in tr && Blocks(b) && b.call.id == d;
        var j :| 0 <= j < |tr| && tr[j] == b;
        assert tr'[j] == b && tr'[|tr|] == t;
        assert BlockedBy(tr', |tr|, j);
        forall j | 0 <= j < |tr|
          ensures tr'[j].call.id != t.call.id && tr'[j].outcome != DependencyCycle
        {
          assert tr[j] in tr && tr[j].call.id in Done(tr);
        }
        assert cs[0] in cs;
        FaithfulExtends(plan, ok, tr, tr');
        assert Done(tr') == Done(tr) + {cs[0].id} by {
          assert forall x :: x in tr' <==> x in tr || x == t;
        }
        SkipPassFaithful(plan, ok, cs[1..], w, tr');
      } else {
        SkipPassFaithful(plan, ok, cs[1..], w, tr);
      }
    }
  }

  /** What a blocked call gets, and where the traces after a pass come from. */
  lemma SkipPassFirst(cs: seq<Call>, w: nat, tr: seq<Trace>)
    requires cs != []
    ensures IsBlocked(cs[0], Blocking(tr)) ==> cs[0].id in Done(SkipPass(cs, w, tr))
    ensures forall t :: t in SkipPass(cs, w, tr) ==>
      t in tr || t.call == cs[0] || (t.call in cs[1..] && t.outcome == DependencyFailed && t.wave == w)
  {
    var tr' := if IsBlocked(cs[0], Blocking(tr)) then tr + [Trace(cs[0], DependencyFailed, w)] else tr;
    SkipPassAppends(cs[1..], w, tr');
    var r := SkipPass(cs, w, tr);
    DoneGrows(tr', r);
    if IsBlocked(cs[0], Blocking(tr)) {
      TracedIsDone(tr', |tr|);
    }
    forall t | t in r
      ensures t in tr || t.call == cs[0] || (t.call in cs[1..] && t.outcome == DependencyFailed && t.wave == w)
    {
      var m :| 0 <= m < |r| && r[m] == t;
      if m < |tr'| {
        assert tr'[m] == t;
      }
    }
  }

  /** A call the pass left alone although it has a blocking dependency: the pass
      skipped that dependency only after it had looked at the call. */
  lemma {:induction false} SkipPassMissed(cs: seq<Call>, w: nat, tr: seq<Trace>, i: nat, t: Trace)
    requires i < |cs| && cs[i].id !in Done(SkipPass(cs, w, tr))
    requires t in SkipPass(cs, w, tr) && Blocks(t) && t.call.id in cs[i].deps
    ensures t.outcome == DependencyFailed && t.wave == w && t.call in cs[i + 1..]
    decreases |cs|
  {
    if i == 0 {
      SkipPassFirst(cs, w, tr);
      assert t.call.id in Done(SkipPass(cs, w, tr));
      assert t in tr ==> t.call.id in Blocking(tr);
    } else {
      var tr' := if IsBlocked(cs[0], Blocking(tr)) then tr + [Trace(cs[0], DependencyFailed, w)] else tr;
      SkipPassMissed(cs[1..], w, tr', i - 1, t);
      assert cs[1..][i..] == cs[i + 1..];
    }
  }

  // ----- one wave, then the whole run -----

  /** The dependency `t` of a call that is ready after the skip pass. */
  lemma MissedIsLate(plan: Plan, w: nat, tr: seq<Trace>, c: Call, t: Trace)
    requires DistinctIds(plan) && c in Unfinished(plan, Done(tr))
    requires c.id !in Done(SkipPass(Unfinished(plan, Done(tr)), w, tr))
    requires t in SkipPass(Unfinished(plan, Done(tr)), w, tr) && t.call.id in c.deps && Blocks(t)
    ensures t.outcome == DependencyFailed && t.wave == w && Before(plan, c.id, t.call.id)
  {
    var cs := Unfinished(plan, Done(tr));
    var a :| 0 <= a < |cs| && cs[a] == c;
    SkipPassMissed(cs, w, tr, a, t);
    var b :| 0 <= b < |cs[a + 1..]| && cs[a + 1..][b] == t.call;
    assert cs[a + 1 + b] == t.call;
    var i, j := UnfinishedOrder(plan, Done(tr), a, a + 1 + b);
  }

  /** A ready call executed after the traces `tr` of its wave's skip pass. */
  lemma ExecuteJustified(plan: Plan, ok: Oracle, w: nat, tr: seq<Trace>, ready: seq<Call>, i: nat)
    requires i < |ready| && DistinctIds(ready) && NoCycleMarks(tr)
    requires forall c :: c in ready ==> c in plan && c.id !in Done(tr) && IsReady(c, Done(tr))
    requires forall c, t :: c in ready && t in tr && t.call.id in c.deps && Blocks(t) ==>
      t.outcome == DependencyFailed && t.wave == w && Before(plan, c.id, t.call.id)
    ensures Justified(plan, ok, tr + ExecutePass(ready, ok, w), |tr| + i)
  {
    var r := tr + ExecutePass(ready, ok, w);
    var n := |tr| + i;
    assert ready[i] in ready && r[n].call == ready[i];
    forall j | 0 <= j < n
      ensures r[j].call.id != r[n].call.id && r[j].outcome != DependencyCycle
    {
      if j < |tr| {
        TracedIsDone(tr, j);
      }
    }
    forall d | d in r[n].call.deps
      ensures DependencyMet(plan, r, n, d)
    {
      var t :| t in tr && t.call.id == d;
      var j :| 0 <= j < |tr| && tr[j] == t;
      assert r[j] == t;
    }
  }

  /** The steps of a deadlock: none is ready, so each waits for a step that has
      no trace, or only one from this very pass. */
  lemma CycleJustified(plan: Plan, ok: Oracle, w: nat, tr: seq<Trace>, pending: seq<Call>, i: nat)
    requires i < |pending| && DistinctIds(pending) && NoCycleMarks(tr)
    requires forall c :: c in pending ==> c in plan && c.id !in Done(tr) && !IsReady(c, Done(tr))
    ensures Justified(plan, ok, tr + CyclePass(pending, w), |tr| + i)
  {
    var r := tr + CyclePass(pending, w);
    var n := |tr| + i;
    assert pending[i] in pending && r[n].call == pending[i];
    var d :| d in pending[i].deps && d !in Done(tr);
    forall j | 0 <= j < n
      ensures r[j].call.id != r[n].call.id
      ensures r[j].call.id == d ==> r[j].outcome == DependencyCycle
    {
      if j < |tr| {
        TracedIsDone(tr, j);
      }
    }
    assert Unresolved(r, n, d);
  }

  lemma CyclePassEnds(plan: Plan, w: nat, tr: seq<Trace>)
    ensures Unfinished(plan, Done(tr + CyclePass(Unfinished(plan, Done(tr)), w))) == []
  {
    var r := tr + CyclePass(Unfinished(plan, Done(tr)), w);
    UnfinishedAt(plan, Done(tr));
    UnfinishedAt(plan, Done(r));
    DoneGrows(tr, r);
    forall c | c in plan
      ensures c.id in Done(r)
    {
      if c.id !in Done(tr) {
        CyclePassMarks(Unfinished(plan, Done(tr)), w, tr, c);
      }
    }
  }

  lemma CyclePassMarks(cs: seq<Call>, w: nat, tr: seq<Trace>, c: Call)
    requires c in cs
    ensures c.id in Done(tr + CyclePass(cs, w))
  {
    var k :| 0 <= k < |cs| && cs[k] == c;
    TracedIsDone(tr + CyclePass(cs, w), |tr| + k);
  }

  lemma MissedAreLate(plan: Plan, w: nat, tr: seq<Trace>)
    requires DistinctIds(plan)
    ensures
      var skipped := SkipPass(Unfinished(plan, Done(tr)), w, tr);
      var ready := Ready(Unfinished(plan, Done(skipped)), Done(skipped));
      forall c, t :: c in ready && t in skipped && t.call.id in c.deps && Blocks(t) ==>
        t.outcome == DependencyFailed && t.wave == w && Before(plan, c.id, t.call.id)
  {
    var skipped := SkipPass(Unfinished(plan, Done(tr)), w, tr);
    ReadyIs(plan, Done(skipped));
    SkipPassAppends(Unfinished(plan, Done(tr)), w, tr);
    DoneGrows(tr, skipped);
    UnfinishedAt(plan, Done(tr));
    forall c, t | c in Ready(Unfinished(plan, Done(skipped)), Done(skipped)) && t in skipped
        && t.call.id in c.deps && Blocks(t)
      ensures t.outcome == DependencyFailed && t.wave == w && Before(plan, c.id, t.call.id)
    {
      MissedIsLate(plan, w, tr, c, t);
    }
  }

  /** The ready calls: distinct, of the plan, not done, their dependencies done. */
  lemma ReadyIs(plan: Plan, done: set<StepId>)
    requires DistinctIds(plan)
    ensures var ready := Ready(Unfinished(plan, done), done);
      DistinctIds(ready) && forall c :: c in ready ==> c in plan && c.id !in done && IsReady(c, done)
  {
    UnfinishedAt(plan, done);
    UnfinishedDistinct(plan, done);
    ReadyAt(Unfinished(plan, done), done);
    ReadyDistinct(Unfinished(plan, done), done);
  }

  lemma ExecuteFaithful(plan: Plan, ok: Oracle, w: nat, tr: seq<Trace>)
    requires DistinctIds(plan) && Faithful(plan, ok, tr) && NoCycleMarks(tr)
    ensures
      var skipped := SkipPass(Unfinished(plan, Done(tr)), w, tr);
      var ready := Ready(Unfinished(plan, Done(skipped)), Done(skipped));
      Faithful(plan, ok, skipped) && NoCycleMarks(skipped) &&
      Faithful(plan, ok, skipped + ExecutePass(ready, ok, w))
  {
    var cs := Unfinished(plan, Done(tr));
    var skipped := SkipPass(cs, w, tr);
    var pending := Unfinished(plan, Done(skipped));
    var ready := Ready(pending, Done(skipped));
    UnfinishedAt(plan, Done(tr));
    UnfinishedDistinct(plan, Done(tr));
    SkipPassFaithful(plan, ok, cs, w, tr);
    ReadyIs(plan, Done(skipped));
    MissedAreLate(plan, w, tr);
    ExecutedAreJustified(plan, ok, w, skipped, ready);
    FaithfulExtends(plan, ok, skipped, skipped + ExecutePass(ready, ok, w));
  }

  lemma ExecutedAreJustified(plan: Plan, ok: Oracle, w: nat, tr: seq<Trace>, ready: seq<Call>)
    requires DistinctIds(ready) && NoCycleMarks(tr)
    requires forall c :: c in ready ==> c in plan && c.id !in Done(tr) && IsReady(c, Done(tr))
    requires forall c, t :: c in ready && t in tr && t.call.id in c.deps && Blocks(t) ==>
      t.outcome == DependencyFailed && t.wave == w && Before(plan, c.id, t.call.id)
    ensures var r := tr + ExecutePass(ready, ok, w);
      forall i :: |tr| <= i < |r| ==> Justified(plan, ok, r, i)
  {
    var r := tr + ExecutePass(ready, ok, w);
    forall i | |tr| <= i < |r|
      ensures Justified(plan, ok, r, i)
    {
      ExecuteJustified(plan, ok, w, tr, ready, i - |tr|);
      assert |tr| + (i - |tr|) == i;
    }
  }

  lemma CycleFaithful(plan: Plan, ok: Oracle, w: nat, tr: seq<Trace>)
    requires DistinctIds(plan) && Faithful(plan, ok, tr) && NoCycleMarks(tr)
    requires Ready(Unfinished(plan, Done(tr)), Done(tr)) == []
    ensures Faithful(plan, ok, tr + CyclePass(Unfinished(plan, Done(tr)), w))
  {
    var pending := Unfinished(plan, Done(tr));
    UnfinishedAt(plan, Done(tr));
    UnfinishedDistinct(plan, Done(tr));
    ReadyAt(pending, Done(tr));
    assert forall c :: c in pending ==> c !in Ready(pending, Done(tr));
    var r := tr + CyclePass(pending, w);
    forall i | |tr| <= i < |r|
      ensures Justified(plan, ok, r, i)
    {
      CycleJustified(plan, ok, w, tr, pending, i - |tr|);
    }
    FaithfulExtends(plan, ok, tr, r);
  }

  lemma ExecuteMarksNoCycle(tr: seq<Trace>, ready: seq<Call>, ok: Oracle, w: nat)
    requires NoCycleMarks(tr)
    ensures NoCycleMarks(tr + ExecutePass(ready, ok, w))
  {
  }

  /** One wave keeps every trace justified; cycle marks end the run. */
  lemma WaveFaithful(plan: Plan, ok: Oracle, w: nat, tr: seq<Trace>)
    requires DistinctIds(plan) && Faithful(plan, ok, tr) && NoCycleMarks(tr)
    ensures Faithful(plan, ok, Wave(plan, ok, w, tr))
    ensures NoCycleMarks(Wave(plan, ok, w, tr)) || Unfinished(plan, Done(Wave(plan, ok, w, tr))) == []
  {
    var cs := Unfinished(plan, Done(tr));
    var skipped := SkipPass(cs, w, tr);
    var ready := Ready(Unfinished(plan, Done(skipped)), Done(skipped));
    ExecuteFaithful(plan, ok, w, tr);
    SkipPassAppends(cs, w, tr);
    if ready != [] {
      ExecuteMarksNoCycle(skipped, ready, ok, w);
    } else if |skipped| == |tr| {
      assert skipped == tr;
      CycleFaithful(plan, ok, w, tr);
      CyclePassEnds(plan, w, tr);
    }
  }

  lemma {:induction false} RunFromFaithful(plan: Plan, ok: Oracle, w: nat, tr: seq<Trace>)
    requires DistinctIds(plan) && Faithful(plan, ok, tr)
    requires NoCycleMarks(tr) || Unfinished(plan, Done(tr)) == []
    ensures Faithful(plan, ok, RunFrom(plan, ok, w, tr))
    ensures Unfinished(plan, Done(RunFrom(plan, ok, w, tr))) == []
    decreases Ids(plan) - Done(tr)
  {
    if Unfinished(plan, Done(tr)) != [] {
      WaveProgress(plan, ok, w, tr);
      WaveFaithful(plan, ok, w, tr);
      RunFromFaithful(plan, ok, w + 1, Wave(plan, ok, w, tr));
    }
  }

  /** Every run, of any plan with distinct ids in any order and under any
      gateway: each trace has its reason, and nothing stays pending. */
  lemma RunFaithful(plan: Plan, ok: Oracle)
    requires DistinctIds(plan)
    ensures Faithful(plan, ok, Run(plan, ok))
    ensures forall c :: c in plan ==> c.id in Done(Run(plan, ok))
  {
    RunFromFaithful(plan, ok, 0, []);
    UnfinishedAt(plan, Done(Run(plan, ok)));
  }
}
