/** What the runner's variables say while its loop runs: with distinct step ids,
    what the traces of the specification say; with a repeated one, that the run
    cannot end without an illegal step transition. */
module RunnerState {
  import opened Common
  import opened ToolPlan
  import opened WaveRun
  import opened WaveTheorems
  import opened PlanTheorems
  import opened CaseContracts
  import opened ToolCallLoop

  /** The calls by step id; a later call with the same id replaces an earlier. */
  function CallTable(plan: Plan): map<StepId, Call> {
    if plan == [] then map[]
    else CallTable(plan[..|plan| - 1])[plan[|plan| - 1].id := plan[|plan| - 1]]
  }

  lemma {:induction false} CallTableKeys(plan: Plan)
    ensures CallTable(plan).Keys == Ids(plan)
  {
    if plan != [] {
      var q, last := plan[..|plan| - 1], plan[|plan| - 1];
      CallTableKeys(q);
      assert plan == q + [last];
    }
  }

  lemma {:induction false} CallTableAt(plan: Plan, k: nat)
    requires DistinctIds(plan) && k < |plan|
    ensures plan[k].id in CallTable(plan) && CallTable(plan)[plan[k].id] == plan[k]
  {
    if k < |plan| - 1 {
      CallTableAt(plan[..|plan| - 1], k);
      assert plan[k].id != plan[|plan| - 1].id;
    }
  }

  lemma CallTableIs(plan: Plan)
    requires DistinctIds(plan)
    ensures CallTable(plan).Keys == Ids(plan)
    ensures forall c :: c in plan ==> CallTable(plan)[c.id] == c
  {
    CallTableKeys(plan);
    forall c | c in plan
      ensures CallTable(plan)[c.id] == c
    {
      var k :| 0 <= k < |plan| && plan[k] == c;
      CallTableAt(plan, k);
    }
  }

  function StepIds(cs: seq<Call>): seq<StepId> {
    seq(|cs|, i requires 0 <= i < |cs| => cs[i].id)
  }

  function Members(xs: seq<StepId>): set<StepId> {
    set x | x in xs
  }

  /** Removes the first occurrence. */
  function RemoveFirst(xs: seq<StepId>, x: StepId): seq<StepId> {
    if xs == [] then []
    else if xs[0] == x then xs[1..]
    else [xs[0]] + RemoveFirst(xs[1..], x)
  }

  /** Removing a step from the pending list and finishing it are one thing. */
  lemma {:induction false} RemoveFinishes(plan: Plan, done: set<StepId>, c: Call)
    requires DistinctIds(plan) && c in plan && c.id !in done
    ensures RemoveFirst(StepIds(Unfinished(plan, done)), c.id) == StepIds(Unfinished(plan, done + {c.id}))
  {
    var rest := plan[1..];
    PendingCons(plan, done);
    PendingCons(plan, done + {c.id});
    RemoveFront(plan[0].id, StepIds(Unfinished(rest, done)), c.id);
    if plan[0].id == c.id {
      UnfinishedSame(rest, done, c.id);
    } else {
      assert c in rest;
      RemoveFinishes(rest, done, c);
    }
  }

  /** The pending ids of a plan, by its first call. */
  lemma PendingCons(plan: Plan, done: set<StepId>)
    requires plan != []
    ensures StepIds(Unfinished(plan, done)) ==
            if plan[0].id in done then StepIds(Unfinished(plan[1..], done))
            else [plan[0].id] + StepIds(Unfinished(plan[1..], done))
  {
    if plan[0].id !in done {
      StepIdsCons(plan[0], Unfinished(plan[1..], done));
    }
  }

  lemma RemoveFront(x: StepId, q: seq<StepId>, id: StepId)
    ensures RemoveFirst([x] + q, id) == if x == id then q else [x] + RemoveFirst(q, id)
  {
    assert ([x] + q)[1..] == q;
  }

  lemma {:induction false} UnfinishedSame(cs: seq<Call>, done: set<StepId>, x: StepId)
    requires forall k :: 0 <= k < |cs| ==> cs[k].id != x
    ensures Unfinished(cs, done) == Unfinished(cs, done + {x})
  {
    if cs != [] {
      UnfinishedSame(cs[1..], done, x);
    }
  }

  /** The status a step has while the loop runs. */
  function InRun(o: Outcome): StepStatus {
    if o.Executed? then StepRunning else StepSkipped
  }

  /** The status a step ends with. */
  function AtEnd(o: Outcome): StepStatus {
    match o
    case Executed(true) => StepCompleted
    case Executed(false) => StepFailed
    case DependencyFailed => StepSkipped
    case DependencyCycle => StepSkipped
  }

  /** The loop's variables say what the traces say. */
  ghost predicate Tracks(plan: Plan, tr: seq<Trace>, pending: seq<StepId>, finished: set<StepId>,
                         blocking: set<StepId>, results: map<StepId, bool>) {
    && pending == StepIds(Unfinished(plan, Done(tr)))
    && finished == Done(tr)
    && blocking == Blocking(tr)
    && results.Keys == ExecutedIds(tr)
    && forall t :: t in tr ==> t.call in plan && (t.outcome.Executed? ==> results[t.call.id] == t.outcome.ok)
  }

  function ExecutedIds(tr: seq<Trace>): set<StepId> {
    set t | t in tr && t.outcome.Executed? :: t.call.id
  }

  /** Traced steps have the status of their trace; of the others, those in
      `running` are running and the rest pending. */
  ghost predicate StepsTrack(plan: Plan, tr: seq<Trace>, running: set<StepId>, steps: map<StepId, StepStatus>) {
    && steps.Keys == Ids(plan)
    && (forall c :: c in plan && c.id !in Done(tr) ==>
          steps[c.id] == if c.id in running then StepRunning else StepPending)
    && forall t :: t in tr ==> t.call.id in steps && steps[t.call.id] == InRun(t.outcome)
  }

  lemma TracksTrace(plan: Plan, tr: seq<Trace>, pending: seq<StepId>, finished: set<StepId>,
                    blocking: set<StepId>, results: map<StepId, bool>, t: Trace)
    requires DistinctIds(plan) && Tracks(plan, tr, pending, finished, blocking, results)
    requires t.call in plan && t.call.id !in Done(tr)
    ensures Tracks(plan, tr + [t], RemoveFirst(pending, t.call.id), finished + {t.call.id},
                   if Blocks(t) then blocking + {t.call.id} else blocking,
                   if t.outcome.Executed? then results[t.call.id := t.outcome.ok] else results)
  {
    RemoveFinishes(plan, Done(tr), t.call);
    OneMoreTrace(tr, t);
    assert forall x :: x in tr ==> x.call.id in Done(tr);
  }

  lemma OneMoreTrace(tr: seq<Trace>, t: Trace)
    ensures forall x :: x in tr + [t] <==> x in tr || x == t
    ensures Done(tr + [t]) == Done(tr) + {t.call.id}
    ensures Blocking(tr + [t]) == if Blocks(t) then Blocking(tr) + {t.call.id} else Blocking(tr)
    ensures ExecutedIds(tr + [t]) == if t.outcome.Executed? then ExecutedIds(tr) + {t.call.id} else ExecutedIds(tr)
  {
    assert forall x :: x in tr + [t] <==> x in tr || x == t;
  }

  lemma StepsTrackTrace(plan: Plan, tr: seq<Trace>, running: set<StepId>, steps: map<StepId, StepStatus>, t: Trace)
    requires DistinctIds(plan) && StepsTrack(plan, tr, running, steps)
    requires t.call in plan && t.call.id !in Done(tr)
    ensures StepsTrack(plan, tr + [t], running, steps[t.call.id := InRun(t.outcome)])
  {
    var tr' := tr + [t];
    assert forall x :: x in tr' <==> x in tr || x == t;
    assert Done(tr') == Done(tr) + {t.call.id};
    assert forall x :: x in tr ==> x.call.id in Done(tr);
  }

  lemma WaveCallsInPlan(plan: Plan, ok: Oracle, w: nat, tr: seq<Trace>)
    ensures forall t :: t in Wave(plan, ok, w, tr) ==> t in tr || t.call in plan
  {
    var r := Wave(plan, ok, w, tr);
    WaveExtends(plan, ok, w, tr);
    UnfinishedAt(plan, Done(tr));
    forall t | t in r
      ensures t in tr || t.call in plan
    {
      var k :| 0 <= k < |r| && r[k] == t;
      assert k < |tr| ==> tr[k] == t;
    }
  }

  /** Nothing runs exactly when every call waits for something. */
  lemma NothingRuns(plan: Plan, ok: Oracle)
    ensures ExecutedIds(Run(plan, ok)) == {} <==> forall c :: c in plan ==> c.deps != []
    ensures (forall c :: c in plan ==> c.deps != []) ==>
      (Blocking(Run(plan, ok)) == {} <==> forall c :: c in plan ==> !c.required)
  {
    var tr := Run(plan, ok);
    UnfinishedAt(plan, Done([]));
    if plan != [] {
      assert plan[0] in plan;
      FirstWave(plan, ok);
      var t0 := Wave(plan, ok, 0, []);
      WaveProgress(plan, ok, 0, []);
      RunFromExtends(plan, ok, 1, t0);
      PrefixIn(t0, tr);
      if forall c :: c in plan ==> c.deps != [] {
        forall c | c in plan
          ensures c.id in Done(t0)
        {
          assert Trace(c, DependencyCycle, 0) in t0;
        }
        UnfinishedAt(plan, Done(t0));
        assert tr == t0;
        WaveCallsInPlan(plan, ok, 0, []);
        forall c | c in plan && c.required
          ensures Blocking(tr) != {}
        {
          var t := Trace(c, DependencyCycle, 0);
          assert t in tr && Blocks(t) && t.call.id in Blocking(tr);
        }
      } else {
        var c :| c in plan && c.deps == [];
        var t := Trace(c, Executed(ok(c.id)), 0);
        assert t in tr && t.call.id in ExecutedIds(tr);
      }
    }
  }

  /** The scheduler's variables before and after each part of a wave. */
  ghost predicate Consistent(plan: Plan, tr: seq<Trace>, pending: seq<StepId>, finished: set<StepId>,
                             blocking: set<StepId>, results: map<StepId, bool>, calls: map<StepId, Call>,
                             steps: map<StepId, StepStatus>) {
    && DistinctIds(plan)
    && calls.Keys == Ids(plan)
    && (forall c :: c in plan ==> calls[c.id] == c)
    && Tracks(plan, tr, pending, finished, blocking, results)
    && StepsTrack(plan, tr, {}, steps)
  }

  /** Some pending step is listed twice or has left its first status. */
  ghost predicate Doomed(pending: seq<StepId>, steps: map<StepId, StepStatus>) {
    exists x :: DoomedBy(x, pending, steps)
  }

  ghost predicate DoomedBy(x: StepId, pending: seq<StepId>, steps: map<StepId, StepStatus>) {
    x in pending && (multiset(pending)[x] >= 2 || (x in steps && steps[x] != StepPending))
  }

  ghost predicate KnownSteps(plan: Plan, pending: seq<StepId>, calls: map<StepId, Call>,
                             steps: map<StepId, StepStatus>) {
    && calls.Keys == Ids(plan) && steps.Keys == Ids(plan)
    && (forall x :: x in pending ==> x in Ids(plan)) && forall x :: x in calls ==> calls[x].id == x
  }

  /** What the loop keeps, for every plan.  With distinct step ids the variables
      say what the traces say; with a repeated one the run is doomed. */
  ghost predicate InLoop(plan: Plan, tr: seq<Trace>, pending: seq<StepId>, finished: set<StepId>,
                         blocking: set<StepId>, results: map<StepId, bool>, calls: map<StepId, Call>,
                         steps: map<StepId, StepStatus>) {
    && KnownSteps(plan, pending, calls, steps)
    && if DistinctIds(plan) then Consistent(plan, tr, pending, finished, blocking, results, calls, steps)
       else Doomed(pending, steps)
  }

  // ----- repeated steps -----

  lemma {:induction false} RemoveFirstCounts(xs: seq<StepId>, x: StepId)
    requires x in xs
    ensures multiset(RemoveFirst(xs, x)) == multiset(xs) - multiset{x} && |RemoveFirst(xs, x)| == |xs| - 1
  {
    assert xs == [xs[0]] + xs[1..];
    if xs[0] != x {
      RemoveFirstCounts(xs[1..], x);
    }
  }

  /** Moving a pending step takes it off the list once; a doomed run stays doomed. */
  lemma DoomedStays(pending: seq<StepId>, steps: map<StepId, StepStatus>, x: StepId, next: StepStatus)
    requires Doomed(pending, steps) && x in pending && x in steps && steps[x] == StepPending && next != StepPending
    ensures Doomed(RemoveFirst(pending, x), steps[x := next])
  {
    var y :| DoomedBy(y, pending, steps);
    RemoveFirstCounts(pending, x);
    var rest := RemoveFirst(pending, x);
    assert multiset(rest)[y] == if y == x then multiset(pending)[y] - 1 else multiset(pending)[y];
    assert y in multiset(rest);
    assert DoomedBy(y, rest, steps[x := next]);
  }

  lemma {:induction false} RepeatedIsTwice(plan: Plan, i: nat, j: nat)
    requires i < j < |plan| && plan[i].id == plan[j].id
    ensures multiset(StepIds(plan))[plan[i].id] >= 2
  {
    var ids := StepIds(plan);
    assert ids == ids[..j] + [ids[j]] + ids[j + 1..];
    assert ids[..j][i] == ids[j];
    assert ids[j] in ids[..j];
  }

  lemma RepeatedIsDoomed(plan: Plan, steps: map<StepId, StepStatus>)
    requires !DistinctIds(plan)
    ensures Doomed(StepIds(plan), steps)
  {
    var i, j :| 0 <= i < j < |plan| && plan[i].id == plan[j].id;
    RepeatedIsTwice(plan, i, j);
    assert StepIds(plan)[i] == plan[i].id;
    assert DoomedBy(plan[i].id, StepIds(plan), steps);
  }

  /** The steps of `all` from `k` on are still on the list. */
  ghost predicate StillListed(all: seq<StepId>, k: nat, pending: seq<StepId>) {
    k <= |all| && multiset(all[k..]) <= multiset(pending)
  }

  lemma NextIsListed(all: seq<StepId>, k: nat, pending: seq<StepId>)
    requires k < |all| && StillListed(all, k, pending)
    ensures all[k] in pending && StillListed(all, k + 1, pending)
    ensures StillListed(all, k + 1, RemoveFirst(pending, all[k]))
  {
    assert all[k..] == [all[k]] + all[k + 1..];
    assert all[k] in multiset(pending);
    RemoveFirstCounts(pending, all[k]);
  }

  // ----- the loop, part by part -----

  /** The calls of `cs` from `k` on have no trace yet. */
  ghost predicate Remaining(cs: seq<Call>, k: nat, tr: seq<Trace>) {
    DistinctIds(cs) && forall j :: k <= j < |cs| ==> cs[j].id !in Done(tr)
  }

  lemma RemainingStep(cs: seq<Call>, k: nat, tr: seq<Trace>, t: Trace)
    requires Remaining(cs, k, tr) && k < |cs| && t.call == cs[k]
    ensures Remaining(cs, k + 1, tr + [t])
  {
    assert forall x :: x in tr + [t] <==> x in tr || x == t;
  }

  /** Skipping a pending step keeps the variables consistent. */
  lemma SkipStep(plan: Plan, tr: seq<Trace>, pending: seq<StepId>, finished: set<StepId>, blocking: set<StepId>,
                 results: map<StepId, bool>, calls: map<StepId, Call>, steps: map<StepId, StepStatus>, t: Trace)
    requires Consistent(plan, tr, pending, finished, blocking, results, calls, steps)
    requires t.call in plan && t.call.id !in Done(tr) && !t.outcome.Executed?
    ensures t.call.id in steps && steps[t.call.id] == StepPending
    ensures Consistent(plan, tr + [t], RemoveFirst(pending, t.call.id), finished + {t.call.id},
                       if t.call.required then blocking + {t.call.id} else blocking, results, calls,
                       steps[t.call.id := StepSkipped])
  {
    TracksTrace(plan, tr, pending, finished, blocking, results, t);
    StepsTrackTrace(plan, tr, {}, steps, t);
  }

  /** The list names these calls of the plan, in order. */
  ghost predicate Lists(pending: seq<StepId>, cs: seq<Call>, plan: Plan, calls: map<StepId, Call>) {
    |pending| == |cs| && forall k :: 0 <= k < |cs| ==>
      cs[k] in plan && pending[k] == cs[k].id && pending[k] in calls && calls[pending[k]] == cs[k]
  }

  lemma ListedCall(pending: seq<StepId>, cs: seq<Call>, plan: Plan, calls: map<StepId, Call>, k: nat)
    requires Lists(pending, cs, plan, calls) && k < |pending|
    ensures k < |cs| && pending[k] in calls && calls[pending[k]] == cs[k] && cs[k] in plan
  {
  }

  /** The pending ids are those of the unfinished calls, in order. */
  lemma PendingCalls(plan: Plan, tr: seq<Trace>, pending: seq<StepId>, finished: set<StepId>,
                     blocking: set<StepId>, results: map<StepId, bool>, calls: map<StepId, Call>,
                     steps: map<StepId, StepStatus>, cs: seq<Call>)
    requires Consistent(plan, tr, pending, finished, blocking, results, calls, steps)
    requires cs == Unfinished(plan, Done(tr))
    ensures Remaining(cs, 0, tr) && Lists(pending, cs, plan, calls)
  {
    UnfinishedAt(plan, Done(tr));
    UnfinishedDistinct(plan, Done(tr));
    forall k | 0 <= k < |cs|
      ensures cs[k] in plan && cs[k].id !in Done(tr)
    {
      assert cs[k] in cs;
    }
  }

  lemma RemoveFirstKnown(xs: seq<StepId>, x: StepId, known: set<StepId>)
    requires x in xs && forall y :: y in xs ==> y in known
    ensures forall y :: y in RemoveFirst(xs, x) ==> y in known
  {
    RemoveFirstCounts(xs, x);
    forall y | y in RemoveFirst(xs, x)
      ensures y in xs
    {
      assert y in multiset(RemoveFirst(xs, x));
    }
  }

  /** The pass has looked at the first `k` calls. */
  ghost predicate PassSoFar(cs: seq<Call>, k: nat, w: nat, tr: seq<Trace>, tr0: seq<Trace>) {
    k <= |cs| && SkipPass(cs[k..], w, tr) == SkipPass(cs, w, tr0) && Remaining(cs, k, tr)
  }

  /** Before a pass over the pending list. */
  lemma PassBegins(plan: Plan, w: nat, tr: seq<Trace>, pending: seq<StepId>, finished: set<StepId>,
                   blocking: set<StepId>, results: map<StepId, bool>, calls: map<StepId, Call>,
                   steps: map<StepId, StepStatus>, cs: seq<Call>)
    requires InLoop(plan, tr, pending, finished, blocking, results, calls, steps)
    requires cs == Unfinished(plan, Done(tr))
    ensures StillListed(pending, 0, pending)
    ensures DistinctIds(plan) ==>
      Lists(pending, cs, plan, calls) && PassSoFar(cs, 0, w, tr, tr) && MarkedSoFar(cs, 0, w, tr, tr)
  {
    assert pending[0..] == pending;
    if DistinctIds(plan) {
      PendingCalls(plan, tr, pending, finished, blocking, results, calls, steps, cs);
      assert cs[0..] == cs && cs[..0] == [];
      assert tr + CyclePass([], w) == tr;
    }
  }

  /** And after it. */
  lemma PassEnds(plan: Plan, pending: seq<StepId>, cs: seq<Call>, calls: map<StepId, Call>, w: nat, tr: seq<Trace>,
                 tr0: seq<Trace>)
    requires DistinctIds(plan) ==> Lists(pending, cs, plan, calls)
    ensures DistinctIds(plan) && PassSoFar(cs, |pending|, w, tr, tr0) ==> tr == SkipPass(cs, w, tr0)
    ensures DistinctIds(plan) && MarkedSoFar(cs, |pending|, w, tr, tr0) ==> tr == tr0 + CyclePass(cs, w)
  {
    assert cs[|cs|..] == [] && cs[..|cs|] == cs;
  }

  lemma PassSkips(cs: seq<Call>, k: nat, w: nat, tr: seq<Trace>, tr0: seq<Trace>, t: Trace)
    requires k < |cs| && PassSoFar(cs, k, w, tr, tr0)
    requires IsBlocked(cs[k], Blocking(tr)) && t == Trace(cs[k], DependencyFailed, w)
    ensures PassSoFar(cs, k + 1, w, tr + [t], tr0) && cs[k].id !in Done(tr)
  {
    assert cs[k..][0] == cs[k] && cs[k..][1..] == cs[k + 1..];
    RemainingStep(cs, k, tr, t);
  }

  lemma PassSpares(cs: seq<Call>, k: nat, w: nat, tr: seq<Trace>, tr0: seq<Trace>)
    requires k < |cs| && PassSoFar(cs, k, w, tr, tr0) && !IsBlocked(cs[k], Blocking(tr))
    ensures PassSoFar(cs, k + 1, w, tr, tr0)
  {
    assert cs[k..][0] == cs[k] && cs[k..][1..] == cs[k + 1..];
  }

  lemma CyclePassSnoc(cs: seq<Call>, k: nat, w: nat, tr: seq<Trace>)
    requires k < |cs|
    ensures tr + CyclePass(cs[..k + 1], w) == tr + CyclePass(cs[..k], w) + [Trace(cs[k], DependencyCycle, w)]
  {
  }

  lemma ExecutePassSnoc(cs: seq<Call>, k: nat, ok: Oracle, w: nat, tr: seq<Trace>)
    requires k < |cs|
    ensures tr + ExecutePass(cs[..k + 1], ok, w) ==
            tr + ExecutePass(cs[..k], ok, w) + [Trace(cs[k], Executed(ok(cs[k].id)), w)]
  {
  }

  /** The first `k` calls are marked. */
  ghost predicate MarkedSoFar(cs: seq<Call>, k: nat, w: nat, tr: seq<Trace>, tr0: seq<Trace>) {
    k <= |cs| && tr == tr0 + CyclePass(cs[..k], w) && Remaining(cs, k, tr)
  }

  lemma MarkOn(cs: seq<Call>, k: nat, w: nat, tr: seq<Trace>, tr0: seq<Trace>, t: Trace)
    requires k < |cs| && MarkedSoFar(cs, k, w, tr, tr0) && t == Trace(cs[k], DependencyCycle, w)
    ensures MarkedSoFar(cs, k + 1, w, tr + [t], tr0) && cs[k].id !in Done(tr)
  {
    RemainingStep(cs, k, tr, t);
    CyclePassSnoc(cs, k, w, tr0);
  }

  /** The steps of the list all of whose dependencies are finished. */
  function ReadyIds(pending: seq<StepId>, finished: set<StepId>, calls: map<StepId, Call>): seq<StepId>
    requires forall x :: x in pending ==> x in calls
  {
    if pending == [] then []
    else
      (if IsReady(calls[pending[0]], finished) then [pending[0]] else []) + ReadyIds(pending[1..], finished, calls)
  }

  lemma SelectStep(todo: seq<StepId>, finished: set<StepId>, calls: map<StepId, Call>, ready: seq<StepId>)
    requires todo != [] && forall x :: x in todo ==> x in calls
    ensures ready + ReadyIds(todo, finished, calls)
         == (if IsReady(calls[todo[0]], finished) then ready + [todo[0]] else ready)
            + ReadyIds(todo[1..], finished, calls)
  {
    Regroup(ready, [todo[0]], ReadyIds(todo[1..], finished, calls));
  }

  /** With distinct ids these are the ids of the ready calls. */
  lemma {:induction false} ReadyIdsAreReady(cs: seq<Call>, finished: set<StepId>, calls: map<StepId, Call>)
    requires forall c :: c in cs ==> c.id in calls && calls[c.id] == c
    ensures forall x :: x in StepIds(cs) ==> x in calls
    ensures ReadyIds(StepIds(cs), finished, calls) == StepIds(Ready(cs, finished))
  {
    forall x | x in StepIds(cs)
      ensures x in calls
    {
      var k :| 0 <= k < |cs| && cs[k].id == x;
      assert cs[k] in cs;
    }
    if cs != [] {
      assert cs[0] in cs && StepIds(cs)[1..] == StepIds(cs[1..]);
      ReadyIdsAreReady(cs[1..], finished, calls);
      StepIdsCons(cs[0], Ready(cs[1..], finished));
    }
  }

  /** A ready step is on the ready list as often as it is pending. */
  lemma {:induction false} ReadyIdsCount(pending: seq<StepId>, finished: set<StepId>, calls: map<StepId, Call>,
                                         x: StepId)
    requires forall y :: y in pending ==> y in calls
    ensures multiset(ReadyIds(pending, finished, calls))[x]
         == if x in calls && IsReady(calls[x], finished) then multiset(pending)[x] else 0
  {
    if pending == [] {
      assert multiset(pending)[x] == 0;
    } else {
      ReadyIdsCount(pending[1..], finished, calls, x);
      ReadyIdsCons(pending, finished, calls);
      CountHead(pending, x);
      CountCons(pending[0], ReadyIds(pending[1..], finished, calls), x);
    }
  }

  lemma ReadyIdsCons(pending: seq<StepId>, finished: set<StepId>, calls: map<StepId, Call>)
    requires pending != [] && forall y :: y in pending ==> y in calls
    ensures ReadyIds(pending, finished, calls) ==
      if IsReady(calls[pending[0]], finished) then [pending[0]] + ReadyIds(pending[1..], finished, calls)
      else ReadyIds(pending[1..], finished, calls)
  {
    assert [] + ReadyIds(pending[1..], finished, calls) == ReadyIds(pending[1..], finished, calls);
  }

  lemma StepIdsCons(c: Call, cs: seq<Call>)
    ensures StepIds([c] + cs) == [c.id] + StepIds(cs)
  {
  }

  /** The steps differ and have not moved yet. */
  predicate Startable(ready: seq<StepId>, steps: map<StepId, StepStatus>) {
    && (forall i :: 0 <= i < |ready| ==> ready[i] in steps && steps[ready[i]] == StepPending)
    && forall i, j :: 0 <= i < j < |ready| ==> ready[i] != ready[j]
  }

  function Started(steps: map<StepId, StepStatus>, ready: seq<StepId>): map<StepId, StepStatus> {
    map x | x in steps :: if x in ready then StepRunning else steps[x]
  }

  lemma NotStartable(ready: seq<StepId>, k: nat, steps: map<StepId, StepStatus>)
    requires k < |ready| && ready[k] in steps && Started(steps, ready[..k])[ready[k]] != StepPending
    ensures !Startable(ready, steps)
  {
    if ready[k] in ready[..k] {
      var i :| 0 <= i < k && ready[..k][i] == ready[k];
      assert ready[i] == ready[k];
    }
  }

  /** With distinct ids every ready set can start. */
  lemma StartedTracks(plan: Plan, tr: seq<Trace>, ready: seq<StepId>, rc: seq<Call>, steps: map<StepId, StepStatus>)
    requires ready == StepIds(rc) && DistinctIds(rc)
    requires forall c :: c in rc ==> c in plan && c.id !in Done(tr)
    requires StepsTrack(plan, tr, {}, steps)
    ensures Startable(ready, steps) && StepsTrack(plan, tr, Ids(rc), Started(steps, ready))
  {
    forall i | 0 <= i < |rc|
      ensures ready[i] in steps && steps[ready[i]] == StepPending
    {
      assert rc[i] in rc;
    }
    forall x
      ensures x in ready <==> x in Ids(rc)
    {
      if x in Ids(rc) {
        var c :| c in rc && c.id == x;
        var i :| 0 <= i < |rc| && rc[i] == c;
        assert ready[i] == x;
      }
      if x in ready {
        var i :| 0 <= i < |ready| && ready[i] == x;
        assert rc[i] in rc;
      }
    }
    assert forall t :: t in tr ==> t.call.id in Done(tr);
  }

  /** A doomed run that could start its ready steps is doomed by another one. */
  lemma DoomedByOther(pending: seq<StepId>, finished: set<StepId>, calls: map<StepId, Call>,
                      steps: map<StepId, StepStatus>) returns (x: StepId)
    requires Doomed(pending, steps) && (forall y :: y in pending ==> y in calls && y in steps)
    requires Startable(ReadyIds(pending, finished, calls), steps)
    ensures DoomedBy(x, pending, steps) && x !in ReadyIds(pending, finished, calls)
  {
    x :| DoomedBy(x, pending, steps);
    var ready := ReadyIds(pending, finished, calls);
    ReadyIdsCount(pending, finished, calls, x);
    if x in ready {
      OnceListed(ready, x);
    }
  }

  lemma {:induction false} OnceListed(xs: seq<StepId>, x: StepId)
    requires x in xs && forall i, j :: 0 <= i < j < |xs| ==> xs[i] != xs[j]
    ensures multiset(xs)[x] == 1
  {
    assert xs == [xs[0]] + xs[1..];
    if x in xs[1..] {
      OnceListed(xs[1..], x);
    }
  }

  /** Recording the result of a running step. */
  lemma ExecuteStep(plan: Plan, tr: seq<Trace>, pending: seq<StepId>, finished: set<StepId>, blocking: set<StepId>,
                    results: map<StepId, bool>, running: set<StepId>, steps: map<StepId, StepStatus>, t: Trace)
    requires DistinctIds(plan) && Tracks(plan, tr, pending, finished, blocking, results)
    requires StepsTrack(plan, tr, running, steps)
    requires t.call in plan && t.call.id !in Done(tr) && t.outcome.Executed? && t.call.id in running
    ensures Tracks(plan, tr + [t], RemoveFirst(pending, t.call.id), finished + {t.call.id},
                   if !t.outcome.ok && t.call.required then blocking + {t.call.id} else blocking,
                   results[t.call.id := t.outcome.ok])
    ensures StepsTrack(plan, tr + [t], running, steps)
  {
    TracksTrace(plan, tr, pending, finished, blocking, results, t);
    StepsTrackTrace(plan, tr, running, steps, t);
    assert steps == steps[t.call.id := StepRunning];
  }

  /** Once all started steps have their trace, none is left running untraced. */
  lemma AllStarted(plan: Plan, tr0: seq<Trace>, tr: seq<Trace>, rc: seq<Call>, ok: Oracle, w: nat,
                   steps: map<StepId, StepStatus>)
    requires tr == tr0 + ExecutePass(rc, ok, w) && StepsTrack(plan, tr, Ids(rc), steps)
    ensures StepsTrack(plan, tr, {}, steps)
  {
    forall c | c in rc
      ensures c.id in Done(tr)
    {
      var k :| 0 <= k < |rc| && rc[k] == c;
      TracedIsDone(tr, |tr0| + k);
    }
  }

  /** What recording needs when ids are distinct: the variables before it. */
  ghost predicate ReadyToRecord(plan: Plan, tr: seq<Trace>, pending: seq<StepId>, finished: set<StepId>,
                                blocking: set<StepId>, results: map<StepId, bool>, calls: map<StepId, Call>,
                                steps: map<StepId, StepStatus>, rc: seq<Call>, k: nat) {
    && DistinctIds(plan) && (forall c :: c in rc ==> c in plan && c.id in calls && calls[c.id] == c)
    && Tracks(plan, tr, pending, finished, blocking, results)
    && StepsTrack(plan, tr, Ids(rc), steps) && Remaining(rc, k, tr)
  }

  lemma RecordStep(plan: Plan, tr: seq<Trace>, pending: seq<StepId>, finished: set<StepId>, blocking: set<StepId>,
                   results: map<StepId, bool>, calls: map<StepId, Call>, steps: map<StepId, StepStatus>,
                   rc: seq<Call>, k: nat, ok: bool, w: nat)
    requires k < |rc| && ReadyToRecord(plan, tr, pending, finished, blocking, results, calls, steps, rc, k)
    ensures ReadyToRecord(plan, tr + [Trace(rc[k], Executed(ok), w)], RemoveFirst(pending, rc[k].id),
                          finished + {rc[k].id},
                          if !ok && rc[k].required then blocking + {rc[k].id} else blocking,
                          results[rc[k].id := ok], calls, steps, rc, k + 1)
  {
    assert rc[k] in rc;
    var t := Trace(rc[k], Executed(ok), w);
    ExecuteStep(plan, tr, pending, finished, blocking, results, Ids(rc), steps, t);
    RemainingStep(rc, k, tr, t);
  }

  /** The first `k` records are entered. */
  ghost predicate Recorded(plan: Plan, ok: Oracle, w: nat, ready: seq<StepId>, rc: seq<Call>, k: nat,
                           tr0: seq<Trace>, pending0: seq<StepId>, results0: map<StepId, bool>,
                           tr: seq<Trace>, pending: seq<StepId>, finished: set<StepId>, blocking: set<StepId>,
                           results: map<StepId, bool>, calls: map<StepId, Call>, steps: map<StepId, StepStatus>) {
    && StillListed(ready, k, pending) && Without(pending0, ready[..k], pending)
    && results.Keys == results0.Keys + Members(ready[..k])
    && (DistinctIds(plan) ==>
          && ready == StepIds(rc) && tr == tr0 + ExecutePass(rc[..k], ok, w)
          && ReadyToRecord(plan, tr, pending, finished, blocking, results, calls, steps, rc, k))
  }

  lemma RecordedOn(plan: Plan, ok: Oracle, w: nat, ready: seq<StepId>, rc: seq<Call>, k: nat,
                   tr0: seq<Trace>, pending0: seq<StepId>, results0: map<StepId, bool>,
                   tr: seq<Trace>, pending: seq<StepId>, finished: set<StepId>, blocking: set<StepId>,
                   results: map<StepId, bool>, calls: map<StepId, Call>, steps: map<StepId, StepStatus>, call: Call)
    requires Recorded(plan, ok, w, ready, rc, k, tr0, pending0, results0, tr, pending, finished, blocking, results,
                      calls, steps)
    requires k < |ready| && ready[k] in calls && call == calls[ready[k]] && call.id == ready[k]
    ensures Recorded(plan, ok, w, ready, rc, k + 1, tr0, pending0, results0,
                     tr + [Trace(call, Executed(ok(call.id)), w)], RemoveFirst(pending, call.id),
                     finished + {call.id},
                     if !ok(call.id) && call.required then blocking + {call.id} else blocking,
                     results[call.id := ok(call.id)], calls, steps)
  {
    NextIsListed(ready, k, pending);
    WithoutOneMore(pending0, ready, k, pending);
    if DistinctIds(plan) {
      assert rc[k] in rc && rc[k] == call;
      RecordStep(plan, tr, pending, finished, blocking, results, calls, steps, rc, k, ok(call.id), w);
      ExecutePassSnoc(rc, k, ok, w, tr0);
    }
  }

  /** `rest` is the list `all` without the steps `gone`, each taken off once. */
  ghost predicate Without(all: seq<StepId>, gone: seq<StepId>, rest: seq<StepId>) {
    multiset(rest) == multiset(all) - multiset(gone) && |rest| == |all| - |gone| && forall x :: x in rest ==> x in all
  }

  lemma WithoutOneMore(all: seq<StepId>, ready: seq<StepId>, k: nat, rest: seq<StepId>)
    requires k < |ready| && Without(all, ready[..k], rest) && ready[k] in rest
    ensures Without(all, ready[..k + 1], RemoveFirst(rest, ready[k]))
    ensures Members(ready[..k + 1]) == Members(ready[..k]) + {ready[k]}
  {
    assert ready[..k + 1] == ready[..k] + [ready[k]];
    RemoveFirstCounts(rest, ready[k]);
    RemoveFirstKnown(rest, ready[k], Members(all));
  }

  lemma ReadyAreListed(pending: seq<StepId>, finished: set<StepId>, calls: map<StepId, Call>)
    requires forall y :: y in pending ==> y in calls
    ensures StillListed(ReadyIds(pending, finished, calls), 0, pending)
    ensures forall x :: x in ReadyIds(pending, finished, calls) ==> x in pending
  {
    var ready := ReadyIds(pending, finished, calls);
    assert ready[0..] == ready;
    forall x
      ensures multiset(ready)[x] <= multiset(pending)[x]
    {
      ReadyIdsCount(pending, finished, calls, x);
    }
    forall x | x in ready
      ensures x in pending
    {
      assert x in multiset(ready) && x in multiset(pending);
    }
  }

  /** With distinct ids the ready steps are those of the specification. */
  lemma ReadyIsTracked(plan: Plan, tr: seq<Trace>, pending: seq<StepId>, finished: set<StepId>, blocking: set<StepId>,
                       results: map<StepId, bool>, calls: map<StepId, Call>, steps: map<StepId, StepStatus>,
                       ready: seq<StepId>, rc: seq<Call>)
    requires Consistent(plan, tr, pending, finished, blocking, results, calls, steps)
    requires (forall x :: x in pending ==> x in calls) && ready == ReadyIds(pending, finished, calls)
    requires rc == Ready(Unfinished(plan, Done(tr)), Done(tr))
    ensures ready == StepIds(rc) && DistinctIds(rc) && Startable(ready, steps)
    ensures ReadyToRecord(plan, tr, pending, finished, blocking, results, calls, Started(steps, ready), rc, 0)
  {
    ReadyFacts(plan, tr);
    ReadyIdsAreReady(Unfinished(plan, Done(tr)), finished, calls);
    StartedTracks(plan, tr, ready, rc, steps);
    assert forall k :: 0 <= k < |rc| ==> rc[k] in rc;
  }

  lemma DoomedAfterReady(pending: seq<StepId>, finished: set<StepId>, calls: map<StepId, Call>,
                         steps: map<StepId, StepStatus>, rest: seq<StepId>)
    requires Doomed(pending, steps) && (forall y :: y in pending ==> y in calls && y in steps)
    requires Startable(ReadyIds(pending, finished, calls), steps)
    requires Without(pending, ReadyIds(pending, finished, calls), rest)
    ensures Doomed(rest, Started(steps, ReadyIds(pending, finished, calls)))
  {
    var ready := ReadyIds(pending, finished, calls);
    var x := DoomedByOther(pending, finished, calls, steps);
    assert multiset(ready)[x] == 0 && multiset(rest)[x] == multiset(pending)[x];
    assert x in multiset(rest);
    assert DoomedBy(x, rest, Started(steps, ready));
  }

  /** Before the first record. */
  lemma NothingRecorded(plan: Plan, ok: Oracle, w: nat, ready: seq<StepId>, rc: seq<Call>,
                        tr: seq<Trace>, pending: seq<StepId>, finished: set<StepId>, blocking: set<StepId>,
                        results: map<StepId, bool>, calls: map<StepId, Call>, steps: map<StepId, StepStatus>)
    requires StillListed(ready, 0, pending)
    requires DistinctIds(plan) ==>
      ready == StepIds(rc) && ReadyToRecord(plan, tr, pending, finished, blocking, results, calls, steps, rc, 0)
    ensures Recorded(plan, ok, w, ready, rc, 0, tr, pending, results, tr, pending, finished, blocking, results,
                     calls, steps)
  {
    assert ready[..0] == [] && Members(ready[..0]) == {};
    assert DistinctIds(plan) ==> tr + ExecutePass(rc[..0], ok, w) == tr;
  }

  lemma RecordedIsConsistent(plan: Plan, ok: Oracle, w: nat, rc: seq<Call>, tr0: seq<Trace>, tr: seq<Trace>,
                             pending: seq<StepId>, finished: set<StepId>, blocking: set<StepId>,
                             results: map<StepId, bool>, calls: map<StepId, Call>, steps: map<StepId, StepStatus>)
    requires calls.Keys == Ids(plan) && forall c :: c in plan ==> calls[c.id] == c
    requires tr == tr0 + ExecutePass(rc[..|rc|], ok, w)
    requires ReadyToRecord(plan, tr, pending, finished, blocking, results, calls, steps, rc, |rc|)
    ensures Consistent(plan, tr, pending, finished, blocking, results, calls, steps)
    ensures tr == tr0 + ExecutePass(rc, ok, w)
  {
    assert rc[..|rc|] == rc;
    AllStarted(plan, tr0, tr, rc, ok, w, steps);
  }

  lemma StillKnown(plan: Plan, pending0: seq<StepId>, ready: seq<StepId>, pending: seq<StepId>,
                   calls: map<StepId, Call>, steps0: map<StepId, StepStatus>)
    requires KnownSteps(plan, pending0, calls, steps0) && Without(pending0, ready, pending)
    ensures KnownSteps(plan, pending, calls, Started(steps0, ready))
  {
  }

  /** After the last record the loop's variables are as they should be. */
  lemma AllRecorded(plan: Plan, ok: Oracle, w: nat, ready: seq<StepId>, rc: seq<Call>, tr0: seq<Trace>,
                    pending0: seq<StepId>, finished0: set<StepId>, blocking0: set<StepId>, results0: map<StepId, bool>,
                    steps0: map<StepId, StepStatus>, tr: seq<Trace>, pending: seq<StepId>, finished: set<StepId>,
                    blocking: set<StepId>, results: map<StepId, bool>, calls: map<StepId, Call>,
                    steps: map<StepId, StepStatus>)
    requires InLoop(plan, tr0, pending0, finished0, blocking0, results0, calls, steps0)
    requires (forall y :: y in pending0 ==> y in calls) && ready == ReadyIds(pending0, finished0, calls)
    requires ready != [] && Startable(ready, steps0) && steps == Started(steps0, ready)
    requires Recorded(plan, ok, w, ready, rc, |ready|, tr0, pending0, results0, tr, pending, finished, blocking,
                      results, calls, steps)
    ensures InLoop(plan, tr, pending, finished, blocking, results, calls, steps)
    ensures DistinctIds(plan) ==> tr == tr0 + ExecutePass(rc, ok, w)
  {
    assert ready[..|ready|] == ready;
    StillKnown(plan, pending0, ready, pending, calls, steps0);
    if DistinctIds(plan) {
      RecordedIsConsistent(plan, ok, w, rc, tr0, tr, pending, finished, blocking, results, calls, steps);
    } else {
      DoomedAfterReady(pending0, finished0, calls, steps0, pending);
    }
  }

  lemma SomethingRecorded(plan: Plan, ok: Oracle, w: nat, ready: seq<StepId>, rc: seq<Call>, tr0: seq<Trace>,
                          pending0: seq<StepId>, results0: map<StepId, bool>, tr: seq<Trace>, pending: seq<StepId>,
                          finished: set<StepId>, blocking: set<StepId>, results: map<StepId, bool>,
                          calls: map<StepId, Call>, steps: map<StepId, StepStatus>)
    requires ready != []
    requires Recorded(plan, ok, w, ready, rc, |ready|, tr0, pending0, results0, tr, pending, finished, blocking,
                      results, calls, steps)
    ensures results.Keys != {} && |pending| < |pending0|
  {
    assert ready[..|ready|] == ready && ready[0] in Members(ready);
  }

  /** The first `k` steps of the plan have their final status. */
  ghost predicate FinishedUpTo(plan: Plan, k: nat, tr: seq<Trace>, steps: map<StepId, StepStatus>)
    requires k <= |plan|
  {
    forall t :: t in tr ==>
      t.call.id in steps && steps[t.call.id] == if t.call in plan[..k] then AtEnd(t.outcome) else InRun(t.outcome)
  }

  lemma FinishStep(plan: Plan, ok: Oracle, k: nat, tr: seq<Trace>, results: map<StepId, bool>,
                   steps: map<StepId, StepStatus>)
    requires DistinctIds(plan) && Faithful(plan, ok, tr) && Done(tr) == Ids(plan) && k < |plan|
    requires results.Keys == ExecutedIds(tr)
    requires forall t :: t in tr ==> t.call in plan && (t.outcome.Executed? ==> results[t.call.id] == t.outcome.ok)
    requires FinishedUpTo(plan, k, tr, steps)
    ensures plan[k].id in steps
    ensures plan[k].id in results ==> steps[plan[k].id] == StepRunning
    ensures FinishedUpTo(plan, k + 1, tr,
      if plan[k].id in results then steps[plan[k].id := if results[plan[k].id] then StepCompleted else StepFailed]
      else steps)
  {
    var c := plan[k];
    var t := TraceById(plan, ok, tr, c);
    assert plan[..k + 1] == plan[..k] + [c];
    assert c !in plan[..k];
    assert c.id in results <==> t.outcome.Executed?;
  }

  lemma TraceById(plan: Plan, ok: Oracle, tr: seq<Trace>, c: Call) returns (t: Trace)
    requires DistinctIds(plan) && Faithful(plan, ok, tr) && Done(tr) == Ids(plan) && c in plan
    requires forall x :: x in tr ==> x.call in plan
    ensures t in tr && t.call == c && forall x :: x in tr && x.call.id == c.id ==> x == t
  {
    assert c.id in Done(tr);
    t :| t in tr && t.call.id == c.id;
    SameId(plan, t.call, c);
    var i :| 0 <= i < |tr| && tr[i] == t;
    forall x | x in tr && x.call.id == c.id
      ensures x == t
    {
      var j :| 0 <= j < |tr| && tr[j] == x;
      OneTrace(plan, ok, tr, i, j);
    }
  }

  lemma RunEnds(plan: Plan, ok: Oracle, w: nat, tr: seq<Trace>, pending: seq<StepId>)
    requires DistinctIds(plan) && pending == [] && pending == StepIds(Unfinished(plan, Done(tr)))
    requires RunFrom(plan, ok, w, tr) == Run(plan, ok)
    ensures tr == Run(plan, ok) && Faithful(plan, ok, tr) && Done(tr) == Ids(plan)
  {
    assert |Unfinished(plan, Done(tr))| == |pending| == 0;
    RunFaithful(plan, ok);
    DoneIsPlan(plan, ok);
  }

  lemma WaveCases(plan: Plan, ok: Oracle, w: nat, tr: seq<Trace>)
    ensures
      var skipped := SkipPass(Unfinished(plan, Done(tr)), w, tr);
      var cs := Unfinished(plan, Done(skipped));
      var rc := Ready(cs, Done(skipped));
      && |skipped| >= |tr|
      && (rc != [] ==> Wave(plan, ok, w, tr) == skipped + ExecutePass(rc, ok, w))
      && (rc == [] && |skipped| > |tr| ==> Wave(plan, ok, w, tr) == skipped)
      && (rc == [] && |skipped| == |tr| ==> Wave(plan, ok, w, tr) == skipped + CyclePass(cs, w))
  {
    SkipPassAppends(Unfinished(plan, Done(tr)), w, tr);
  }

  lemma ReadyFacts(plan: Plan, tr: seq<Trace>)
    requires DistinctIds(plan)
    ensures
      var rc := Ready(Unfinished(plan, Done(tr)), Done(tr));
      DistinctIds(rc) && forall c :: c in rc ==> c in plan && c.id !in Done(tr)
    ensures forall c :: c in Unfinished(plan, Done(tr)) ==> c in plan
  {
    var cs := Unfinished(plan, Done(tr));
    UnfinishedAt(plan, Done(tr));
    UnfinishedDistinct(plan, Done(tr));
    ReadyAt(cs, Done(tr));
    ReadyDistinct(cs, Done(tr));
  }

  lemma LoopBegins(plan: Plan, steps: map<StepId, StepStatus>)
    requires steps == map x | x in Ids(plan) :: StepPending
    ensures InLoop(plan, [], StepIds(plan), {}, {}, map[], CallTable(plan), steps)
  {
    CallTableKeys(plan);
    CallTableIds(plan);
    forall x | x in StepIds(plan)
      ensures x in Ids(plan)
    {
      var i :| 0 <= i < |plan| && plan[i].id == x;
      assert plan[i] in plan;
    }
    if DistinctIds(plan) {
      CallTableIs(plan);
      AllPending(plan);
    } else {
      RepeatedIsDoomed(plan, steps);
    }
  }

  lemma {:induction false} CallTableIds(plan: Plan)
    ensures forall x :: x in CallTable(plan) ==> CallTable(plan)[x].id == x
  {
    if plan != [] {
      CallTableIds(plan[..|plan| - 1]);
    }
  }

  lemma AllPending(plan: Plan)
    ensures Unfinished(plan, Done([])) == plan
  {
    assert Done([]) == {};
    UnfinishedAll(plan);
  }

  lemma {:induction false} UnfinishedAll(cs: seq<Call>)
    ensures Unfinished(cs, {}) == cs
  {
    if cs != [] {
      UnfinishedAll(cs[1..]);
    }
  }
}
