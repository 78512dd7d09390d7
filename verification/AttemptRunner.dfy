/** The wave loop as the runner executes it: a pending list, a finished and a
    blocking set, recorded results, and a case record whose steps change status
    as the loop goes. */
module AttemptRunner {
  import opened Common
  import opened ToolPlan
  import opened WaveRun
  import opened WaveTheorems
  import opened PlanTheorems
  import opened CaseContracts
  import opened ToolCallLoop
  import opened RunnerState

  /** What a run can raise: a step the case record does not accept, before
      anything runs; an illegal step transition, in the loop; or an illegal case
      transition, at the very end. */
  datatype RunError = InvalidStep | IllegalStep | IllegalTransition

  datatype RunResult = Raised(error: RunError) | Finished(failed: bool)

  /** Skips one pending step: its status, its trace and the three sets.  Only in a
      plan with repeated ids can the step have moved before. */
  method SkipOne(plan: Plan, record: CaseRecord, ghost calls: map<StepId, Call>, tr0: seq<Trace>,
                 pending0: seq<StepId>, finished0: set<StepId>, blocking0: set<StepId>,
                 ghost results: map<StepId, bool>, t: Trace)
      returns (legal: bool, tr: seq<Trace>, pending: seq<StepId>, finished: set<StepId>, blocking: set<StepId>)
    requires InLoop(plan, tr0, pending0, finished0, blocking0, results, calls, record.steps)
    requires t.call.id in pending0 && !t.outcome.Executed?
    requires DistinctIds(plan) ==> t.call in plan && t.call.id !in Done(tr0)
    modifies record`steps
    ensures DistinctIds(plan) ==> legal
    ensures legal ==> InLoop(plan, tr, pending, finished, blocking, results, calls, record.steps)
    ensures legal ==> tr == tr0 + [t] && pending == RemoveFirst(pending0, t.call.id)
  {
    tr, pending, finished, blocking := tr0, pending0, finished0, blocking0;
    if DistinctIds(plan) {
      SkipStep(plan, tr0, pending0, finished0, blocking0, results, calls, record.steps, t);
    }
    legal := record.TransitionStep(t.call.id, StepSkipped);
    if !legal {
      return;
    }
    if !DistinctIds(plan) {
      DoomedStays(pending0, old(record.steps), t.call.id, StepSkipped);
    }
    RemoveFirstKnown(pending0, t.call.id, Ids(plan));
    tr := tr0 + [t];
    finished := finished0 + {t.call.id};
    pending := RemoveFirst(pending0, t.call.id);
    blocking := if t.call.required then blocking0 + {t.call.id} else blocking0;
  }

  /** The skip pass: every pending step, in order, is skipped on the spot if a
      dependency of it blocks by now. */
  method SkipBlocked(plan: Plan, w: nat, record: CaseRecord, calls: map<StepId, Call>, tr0: seq<Trace>,
                     pending0: seq<StepId>, finished0: set<StepId>, blocking0: set<StepId>,
                     ghost results: map<StepId, bool>)
      returns (legal: bool, tr: seq<Trace>, pending: seq<StepId>, finished: set<StepId>, blocking: set<StepId>)
    requires InLoop(plan, tr0, pending0, finished0, blocking0, results, calls, record.steps)
    modifies record`steps
    ensures DistinctIds(plan) ==> legal
    ensures legal ==> InLoop(plan, tr, pending, finished, blocking, results, calls, record.steps)
    ensures legal ==> |tr| + |pending| == |tr0| + |pending0| && |pending| <= |pending0|
    ensures legal && DistinctIds(plan) ==> tr == SkipPass(Unfinished(plan, Done(tr0)), w, tr0)
  {
    legal, tr, pending, finished, blocking := true, tr0, pending0, finished0, blocking0;
    ghost var cs := Unfinished(plan, Done(tr0));
    PassBegins(plan, w, tr0, pending0, finished0, blocking0, results, calls, record.steps, cs);
    for k := 0 to |pending0|
      invariant InLoop(plan, tr, pending, finished, blocking, results, calls, record.steps)
      invariant StillListed(pending0, k, pending)
      invariant |tr| + |pending| == |tr0| + |pending0| && |pending| <= |pending0|
      invariant DistinctIds(plan) ==> PassSoFar(cs, k, w, tr, tr0)
    {
      legal, tr, pending, finished, blocking :=
        LookAt(plan, w, record, calls, tr0, pending0, k, tr, pending, finished, blocking, results, cs);
      if !legal {
        return;
      }
    }
    PassEnds(plan, pending0, cs, calls, w, tr, tr0);
  }

  /** The look at one step of the pass. */
  method LookAt(plan: Plan, w: nat, record: CaseRecord, calls: map<StepId, Call>, ghost before: seq<Trace>,
                all: seq<StepId>, k: nat, tr0: seq<Trace>, pending0: seq<StepId>, finished0: set<StepId>,
                blocking0: set<StepId>, ghost results: map<StepId, bool>, ghost cs: seq<Call>)
      returns (legal: bool, tr: seq<Trace>, pending: seq<StepId>, finished: set<StepId>, blocking: set<StepId>)
    requires InLoop(plan, tr0, pending0, finished0, blocking0, results, calls, record.steps)
    requires k < |all| && StillListed(all, k, pending0)
    requires DistinctIds(plan) ==> PassSoFar(cs, k, w, tr0, before) && Lists(all, cs, plan, calls)
    modifies record`steps
    ensures DistinctIds(plan) ==> legal
    ensures legal ==> InLoop(plan, tr, pending, finished, blocking, results, calls, record.steps)
    ensures legal ==> StillListed(all, k + 1, pending)
    ensures legal ==> |tr| + |pending| == |tr0| + |pending0| && |pending| <= |pending0|
    ensures legal && DistinctIds(plan) ==> PassSoFar(cs, k + 1, w, tr, before)
  {
    legal, tr, pending, finished, blocking := true, tr0, pending0, finished0, blocking0;
    NextIsListed(all, k, pending0);
    var call := calls[all[k]];
    if DistinctIds(plan) {
      ListedCall(all, cs, plan, calls, k);
    }
    if IsBlocked(call, blocking0) {
      var t := Trace(call, DependencyFailed, w);
      if DistinctIds(plan) {
        PassSkips(cs, k, w, tr0, before, t);
      }
      RemoveFirstCounts(pending0, call.id);
      legal, tr, pending, finished, blocking :=
        SkipOne(plan, record, calls, tr0, pending0, finished0, blocking0, results, t);
    } else if DistinctIds(plan) {
      PassSpares(cs, k, w, tr0, before);
    }
  }

  /** The mark of one unresolved step. */
  method MarkOne(plan: Plan, w: nat, record: CaseRecord, calls: map<StepId, Call>, ghost before: seq<Trace>,
                 all: seq<StepId>, k: nat, tr0: seq<Trace>, pending0: seq<StepId>, finished0: set<StepId>,
                 blocking0: set<StepId>, ghost results: map<StepId, bool>, ghost cs: seq<Call>)
      returns (legal: bool, tr: seq<Trace>, pending: seq<StepId>, finished: set<StepId>, blocking: set<StepId>)
    requires InLoop(plan, tr0, pending0, finished0, blocking0, results, calls, record.steps)
    requires k < |all| && StillListed(all, k, pending0)
    requires DistinctIds(plan) ==> MarkedSoFar(cs, k, w, tr0, before) && Lists(all, cs, plan, calls)
    modifies record`steps
    ensures DistinctIds(plan) ==> legal
    ensures legal ==> InLoop(plan, tr, pending, finished, blocking, results, calls, record.steps)
    ensures legal ==> StillListed(all, k + 1, pending) && |pending| == |pending0| - 1
    ensures legal && DistinctIds(plan) ==> MarkedSoFar(cs, k + 1, w, tr, before)
  {
    NextIsListed(all, k, pending0);
    var call := calls[all[k]];
    var t := Trace(call, DependencyCycle, w);
    if DistinctIds(plan) {
      ListedCall(all, cs, plan, calls, k);
      MarkOn(cs, k, w, tr0, before, t);
    }
    RemoveFirstCounts(pending0, call.id);
    legal, tr, pending, finished, blocking :=
      SkipOne(plan, record, calls, tr0, pending0, finished0, blocking0, results, t);
  }

  /** The deadlock branch: everything still pending is skipped as a cycle. */
  method SkipUnresolved(plan: Plan, w: nat, record: CaseRecord, calls: map<StepId, Call>, tr0: seq<Trace>,
                        pending0: seq<StepId>, finished0: set<StepId>, blocking0: set<StepId>,
                        ghost results: map<StepId, bool>)
      returns (legal: bool, tr: seq<Trace>, pending: seq<StepId>, finished: set<StepId>, blocking: set<StepId>)
    requires InLoop(plan, tr0, pending0, finished0, blocking0, results, calls, record.steps)
    modifies record`steps
    ensures DistinctIds(plan) ==> legal
    ensures legal ==> InLoop(plan, tr, pending, finished, blocking, results, calls, record.steps) && pending == []
    ensures legal && DistinctIds(plan) ==> tr == tr0 + CyclePass(Unfinished(plan, Done(tr0)), w)
  {
    legal, tr, pending, finished, blocking := true, tr0, pending0, finished0, blocking0;
    ghost var cs := Unfinished(plan, Done(tr0));
    PassBegins(plan, w, tr0, pending0, finished0, blocking0, results, calls, record.steps, cs);
    for k := 0 to |pending0|
      invariant InLoop(plan, tr, pending, finished, blocking, results, calls, record.steps)
      invariant StillListed(pending0, k, pending) && |pending| == |pending0| - k
      invariant DistinctIds(plan) ==> MarkedSoFar(cs, k, w, tr, tr0)
    {
      legal, tr, pending, finished, blocking :=
        MarkOne(plan, w, record, calls, tr0, pending0, k, tr, pending, finished, blocking, results, cs);
      if !legal {
        return;
      }
    }
    PassEnds(plan, pending0, cs, calls, w, tr, tr0);
  }

  method SelectReady(pending: seq<StepId>, finished: set<StepId>, calls: map<StepId, Call>)
      returns (ready: seq<StepId>)
    requires forall x :: x in pending ==> x in calls
    ensures ready == ReadyIds(pending, finished, calls)
  {
    ready := [];
    ghost var todo := pending;
    for k := 0 to |pending|
      invariant todo == pending[k..]
      invariant ReadyIds(pending, finished, calls) == ready + ReadyIds(todo, finished, calls)
    {
      SelectStep(todo, finished, calls, ready);
      if IsReady(calls[pending[k]], finished) {
        ready := ready + [pending[k]];
      }
      todo := todo[1..];
    }
  }

  /** The ready steps go from pending to running, one after the other. */
  method StartAll(record: CaseRecord, ready: seq<StepId>) returns (legal: bool)
    requires forall x :: x in ready ==> x in record.steps
    modifies record`steps
    ensures legal <==> Startable(ready, old(record.steps))
    ensures legal ==> record.steps == Started(old(record.steps), ready)
  {
    ghost var before := record.steps;
    legal := true;
    for k := 0 to |ready|
      invariant record.steps == Started(before, ready[..k]) && Startable(ready[..k], before)
    {
      assert ready[..k + 1] == ready[..k] + [ready[k]];
      assert ready[k] in ready;
      legal := record.TransitionStep(ready[k], StepRunning);
      if !legal {
        NotStartable(ready, k, before);
        return;
      }
    }
    assert ready[..|ready|] == ready;
  }

  /** The records of a ready set are entered in their order. */
  method RecordAll(plan: Plan, ok: Oracle, w: nat, calls: map<StepId, Call>, records: seq<Execution>,
                   tr0: seq<Trace>, pending0: seq<StepId>, finished0: set<StepId>, blocking0: set<StepId>,
                   results0: map<StepId, bool>, ghost ready: seq<StepId>, ghost rc: seq<Call>,
                   ghost steps: map<StepId, StepStatus>)
      returns (tr: seq<Trace>, pending: seq<StepId>, finished: set<StepId>, blocking: set<StepId>,
               results: map<StepId, bool>)
    requires records == Records(ready, ok) && forall x :: x in ready ==> x in calls && calls[x].id == x
    requires Recorded(plan, ok, w, ready, rc, 0, tr0, pending0, results0, tr0, pending0, finished0, blocking0,
                      results0, calls, steps)
    ensures Recorded(plan, ok, w, ready, rc, |ready|, tr0, pending0, results0, tr, pending, finished, blocking,
                     results, calls, steps)
  {
    tr, pending, finished, blocking, results := tr0, pending0, finished0, blocking0, results0;
    for k := 0 to |records|
      invariant Recorded(plan, ok, w, ready, rc, k, tr0, pending0, results0, tr, pending, finished, blocking,
                         results, calls, steps)
    {
      assert ready[k] in ready && records[k] == Execution(ready[k], ok(ready[k]));
      var call := calls[records[k].id];
      RecordedOn(plan, ok, w, ready, rc, k, tr0, pending0, results0, tr, pending, finished, blocking, results,
                 calls, steps, call);
      tr := tr + [Trace(call, Executed(records[k].ok), w)];
      results := results[call.id := records[k].ok];
      finished := finished + {call.id};
      pending := RemoveFirst(pending, call.id);
      if !records[k].ok && call.required {
        blocking := blocking + {call.id};
      }
    }
  }

  /** The ready steps have started: they are executed and their outcomes recorded. */
  method RunStarted(plan: Plan, ok: Oracle, maxConcurrency: int, w: nat, calls: map<StepId, Call>, tr0: seq<Trace>,
                    pending0: seq<StepId>, finished0: set<StepId>, blocking0: set<StepId>,
                    results0: map<StepId, bool>, ready: seq<StepId>, ghost rc: seq<Call>,
                    ghost steps0: map<StepId, StepStatus>, ghost steps: map<StepId, StepStatus>)
      returns (tr: seq<Trace>, pending: seq<StepId>, finished: set<StepId>, blocking: set<StepId>,
               results: map<StepId, bool>)
    requires InLoop(plan, tr0, pending0, finished0, blocking0, results0, calls, steps0)
    requires ready != [] && (forall x :: x in pending0 ==> x in calls)
    requires ready == ReadyIds(pending0, finished0, calls)
    requires Startable(ready, steps0) && steps == Started(steps0, ready)
    requires DistinctIds(plan) ==> rc == Ready(Unfinished(plan, Done(tr0)), Done(tr0))
    ensures InLoop(plan, tr, pending, finished, blocking, results, calls, steps)
    ensures results.Keys != {} && |pending| < |pending0|
    ensures DistinctIds(plan) ==> tr == tr0 + ExecutePass(rc, ok, w)
  {
    ReadyAreListed(pending0, finished0, calls);
    if DistinctIds(plan) {
      ReadyIsTracked(plan, tr0, pending0, finished0, blocking0, results0, calls, steps0, ready, rc);
    }
    NothingRecorded(plan, ok, w, ready, rc, tr0, pending0, finished0, blocking0, results0, calls, steps);
    var records := ExecuteRecords(ready, ok, maxConcurrency);
    tr, pending, finished, blocking, results :=
      RecordAll(plan, ok, w, calls, records, tr0, pending0, finished0, blocking0, results0, ready, rc, steps);
    SomethingRecorded(plan, ok, w, ready, rc, tr0, pending0, results0, tr, pending, finished, blocking, results,
                      calls, steps);
    AllRecorded(plan, ok, w, ready, rc, tr0, pending0, finished0, blocking0, results0, steps0, tr, pending,
                finished, blocking, results, calls, steps);
  }

  /** The ready steps start, the case is running, and their outcomes are recorded. */
  method RunReady(plan: Plan, ok: Oracle, maxConcurrency: int, w: nat, record: CaseRecord,
                  calls: map<StepId, Call>, tr0: seq<Trace>, pending0: seq<StepId>, finished0: set<StepId>,
                  blocking0: set<StepId>, results0: map<StepId, bool>, ready: seq<StepId>, ghost rc: seq<Call>)
      returns (legal: bool, tr: seq<Trace>, pending: seq<StepId>, finished: set<StepId>, blocking: set<StepId>,
               results: map<StepId, bool>)
    requires InLoop(plan, tr0, pending0, finished0, blocking0, results0, calls, record.steps)
    requires record.status in {CasePlanned, CaseRunning}
    requires ready != [] && (forall x :: x in pending0 ==> x in calls)
    requires ready == ReadyIds(pending0, finished0, calls)
    requires DistinctIds(plan) ==>
      rc == Ready(Unfinished(plan, Done(tr0)), Done(tr0)) && Startable(ready, record.steps)
    modifies record
    ensures DistinctIds(plan) ==> legal
    ensures legal ==> InLoop(plan, tr, pending, finished, blocking, results, calls, record.steps)
    ensures legal ==> record.status == CaseRunning && results.Keys != {} && |pending| < |pending0|
    ensures legal && DistinctIds(plan) ==> tr == tr0 + ExecutePass(rc, ok, w)
  {
    tr, pending, finished, blocking, results := tr0, pending0, finished0, blocking0, results0;
    ghost var steps0 := record.steps;
    ReadyAreListed(pending0, finished0, calls);
    legal := StartAll(record, ready);
    if !legal {
      return;
    }
    if record.status == CasePlanned {
      var moved := record.TransitionCase(CaseRunning);
      assert moved;
    }
    tr, pending, finished, blocking, results :=
      RunStarted(plan, ok, maxConcurrency, w, calls, tr0, pending0, finished0, blocking0, results0, ready, rc,
                 steps0, record.steps);
  }

  /** After the loop the executed steps get their final status. */
  method FinishSteps(plan: Plan, ok: Oracle, record: CaseRecord, ghost tr: seq<Trace>, results: map<StepId, bool>)
    requires DistinctIds(plan) && Faithful(plan, ok, tr) && Done(tr) == Ids(plan)
    requires results.Keys == ExecutedIds(tr)
    requires forall t :: t in tr ==> t.call in plan && (t.outcome.Executed? ==> results[t.call.id] == t.outcome.ok)
    requires StepsTrack(plan, tr, {}, record.steps)
    modifies record`steps
    ensures record.steps.Keys == Ids(plan)
    ensures forall t :: t in tr ==> t.call.id in record.steps && record.steps[t.call.id] == AtEnd(t.outcome)
  {
    for k := 0 to |plan|
      invariant record.steps.Keys == Ids(plan)
      invariant FinishedUpTo(plan, k, tr, record.steps)
    {
      FinishOne(plan, ok, k, record, tr, results);
    }
    assert plan[..|plan|] == plan;
  }

  method FinishOne(plan: Plan, ok: Oracle, k: nat, record: CaseRecord, ghost tr: seq<Trace>,
                   results: map<StepId, bool>)
    requires DistinctIds(plan) && Faithful(plan, ok, tr) && Done(tr) == Ids(plan) && k < |plan|
    requires results.Keys == ExecutedIds(tr)
    requires forall t :: t in tr ==> t.call in plan && (t.outcome.Executed? ==> results[t.call.id] == t.outcome.ok)
    requires record.steps.Keys == Ids(plan) && FinishedUpTo(plan, k, tr, record.steps)
    modifies record`steps
    ensures record.steps.Keys == Ids(plan) && FinishedUpTo(plan, k + 1, tr, record.steps)
  {
    var c := plan[k];
    FinishStep(plan, ok, k, tr, results, record.steps);
    if c.id in results {
      var legal := record.TransitionStep(c.id, if results[c.id] then StepCompleted else StepFailed);
      assert legal;
    }
  }

  /** Some required step failed or was skipped exactly when the blocking set is
      not empty. */
  lemma VerdictIsBlocking(plan: Plan, ok: Oracle, tr: seq<Trace>, steps: map<StepId, StepStatus>)
    requires DistinctIds(plan) && Faithful(plan, ok, tr) && Done(tr) == Ids(plan)
    requires forall x :: x in tr ==> x.call in plan
    requires forall t :: t in tr ==> t.call.id in steps && steps[t.call.id] == AtEnd(t.outcome)
    ensures (exists c :: c in plan && c.required && c.id in steps && steps[c.id] in {StepFailed, StepSkipped})
            <==> Blocking(tr) != {}
  {
    forall c | c in plan
      ensures c.required && c.id in steps && steps[c.id] in {StepFailed, StepSkipped} ==> c.id in Blocking(tr)
    {
      var t := TraceById(plan, ok, tr, c);
    }
    if Blocking(tr) != {} {
      var x :| x in Blocking(tr);
      var t :| t in tr && Blocks(t) && t.call.id == x;
      assert t.call in plan;
    }
  }

  /** One iteration of the loop. */
  method RunWave(plan: Plan, ok: Oracle, maxConcurrency: int, w: nat, record: CaseRecord,
                 calls: map<StepId, Call>, tr0: seq<Trace>, pending0: seq<StepId>, finished0: set<StepId>,
                 blocking0: set<StepId>, results0: map<StepId, bool>)
      returns (legal: bool, tr: seq<Trace>, pending: seq<StepId>, finished: set<StepId>, blocking: set<StepId>,
               results: map<StepId, bool>)
    requires InLoop(plan, tr0, pending0, finished0, blocking0, results0, calls, record.steps) && pending0 != []
    requires record.status == if results0.Keys == {} then CasePlanned else CaseRunning
    modifies record
    ensures DistinctIds(plan) ==> legal
    ensures legal ==> InLoop(plan, tr, pending, finished, blocking, results, calls, record.steps)
    ensures legal ==> record.status == if results.Keys == {} then CasePlanned else CaseRunning
    ensures legal ==> |pending| < |pending0|
    ensures legal && DistinctIds(plan) ==> tr == Wave(plan, ok, w, tr0)
  {
    WaveCases(plan, ok, w, tr0);
    results := results0;
    legal, tr, pending, finished, blocking :=
      SkipBlocked(plan, w, record, calls, tr0, pending0, finished0, blocking0, results0);
    if !legal {
      return;
    }
    var ready := SelectReady(pending, finished, calls);
    ghost var rc := Ready(Unfinished(plan, Done(tr)), Done(tr));
    if DistinctIds(plan) {
      ReadyIsTracked(plan, tr, pending, finished, blocking, results, calls, record.steps, ready, rc);
      assert |ready| == |rc|;
    }
    if ready == [] {
      if |tr| == |tr0| {
        legal, tr, pending, finished, blocking :=
          SkipUnresolved(plan, w, record, calls, tr, pending, finished, blocking, results);
      }
    } else {
      legal, tr, pending, finished, blocking, results :=
        RunReady(plan, ok, maxConcurrency, w, record, calls, tr, pending, finished, blocking, results, ready, rc);
    }
  }

  /** Whether a required step failed or was skipped. */
  method Verdict(plan: Plan, ok: Oracle, record: CaseRecord, ghost tr: seq<Trace>) returns (failed: bool)
    requires DistinctIds(plan) && Faithful(plan, ok, tr) && Done(tr) == Ids(plan)
    requires forall x :: x in tr ==> x.call in plan
    requires forall t :: t in tr ==> t.call.id in record.steps && record.steps[t.call.id] == AtEnd(t.outcome)
    ensures failed <==> Blocking(tr) != {}
  {
    VerdictIsBlocking(plan, ok, tr, record.steps);
    failed := exists c :: (
      c in plan && c.required && c.id in record.steps && record.steps[c.id] in {StepFailed, StepSkipped});
  }

  /** The loop, until nothing is pending.  It raises, on an illegal step transition,
      exactly for a plan with a repeated step id. */
  method RunWaves(plan: Plan, record: CaseRecord, ok: Oracle, maxConcurrency: int)
      returns (legal: bool, traces: seq<Trace>, results: map<StepId, bool>)
    requires record.status == CasePlanned && record.steps == map x | x in Ids(plan) :: StepPending
    modifies record
    ensures legal <==> DistinctIds(plan)
    ensures legal ==>
      && traces == Run(plan, ok) && Faithful(plan, ok, traces) && Done(traces) == Ids(plan)
      && results.Keys == ExecutedIds(traces)
      && (forall t :: t in traces ==> t.call in plan && (t.outcome.Executed? ==> results[t.call.id] == t.outcome.ok))
      && StepsTrack(plan, traces, {}, record.steps)
      && record.status == if ExecutedIds(traces) == {} then CasePlanned else CaseRunning
  {
    var calls := CallTable(plan);
    traces := [];
    var blocking: set<StepId>, finished: set<StepId> := {}, {};
    results := map[];
    var pending := StepIds(plan);
    LoopBegins(plan, record.steps);
    var w := 0;
    while pending != []
      invariant InLoop(plan, traces, pending, finished, blocking, results, calls, record.steps)
      invariant DistinctIds(plan) ==> RunFrom(plan, ok, w, traces) == Run(plan, ok)
      invariant record.status == if results.Keys == {} then CasePlanned else CaseRunning
      decreases |pending|
    {
      if DistinctIds(plan) {
        assert Unfinished(plan, Done(traces)) != [];
        WaveProgress(plan, ok, w, traces);
      }
      legal, traces, pending, finished, blocking, results :=
        RunWave(plan, ok, maxConcurrency, w, record, calls, traces, pending, finished, blocking, results);
      if !legal {
        return;
      }
      w := w + 1;
    }
    legal := true;
    RunEnds(plan, ok, w, traces, pending);
  }

  /** The final case transition; it raises when the case never started and has
      not failed. */
  method Conclude(record: CaseRecord, failed: bool) returns (result: RunResult)
    requires record.status in {CasePlanned, CaseRunning}
    modifies record`status
    ensures result
         == if old(record.status) == CasePlanned && !failed then Raised(IllegalTransition) else Finished(failed)
    ensures record.status ==
      if result.Raised? then CasePlanned else if failed then CaseFailed else CaseCompleted
  {
    var legal := record.TransitionCase(if failed then CaseFailed else CaseCompleted);
    result := if legal then Finished(failed) else Raised(IllegalTransition);
  }

  /** Executes the plan.  A plan with a step the case record does not accept raises
      before anything runs, and one with a repeated step id raises in the loop.
      For any other plan the traces are those of the specification `Run`; every
      step transition on the way is legal; each step ends with the status of its
      one trace; the verdict is the blocking set's; and the run raises, at the very
      end, exactly when nothing could run and nothing was required. */
  method RunToolPlan(plan: Plan, ok: Oracle, maxConcurrency: int)
      returns (record: CaseRecord?, traces: seq<Trace>, result: RunResult)
    ensures result.Raised? <==>
      !Buildable(plan) || !DistinctIds(plan) || forall c :: c in plan ==> c.deps != [] && !c.required
    ensures result == Raised(InvalidStep) <==> !Buildable(plan)
    ensures result == Raised(IllegalStep) <==> Buildable(plan) && !DistinctIds(plan)
    ensures !Buildable(plan) ==> record == null && traces == []
    ensures Buildable(plan) && DistinctIds(plan) ==>
      && record != null && fresh(record) && traces == Run(plan, ok) && record.steps.Keys == Ids(plan)
      && (forall t :: t in traces ==> t.call.id in record.steps && record.steps[t.call.id] == AtEnd(t.outcome))
      && (result.Raised? ==> record.status == CasePlanned)
      && (result.Finished? ==> (result.failed <==> Blocking(traces) != {}))
      && (result.Finished? ==> record.status == if result.failed then CaseFailed else CaseCompleted)
  {
    var built := CaseRecord.FromPlan(plan);
    if built.Rejected? {
      return null, [], Raised(InvalidStep);
    }
    traces, result := RunCase(plan, built.record, ok, maxConcurrency);
    record := built.record;
  }

  /** The run of a case that was built. */
  method RunCase(plan: Plan, record: CaseRecord, ok: Oracle, maxConcurrency: int)
      returns (traces: seq<Trace>, result: RunResult)
    requires record.status == CasePlanned && record.steps == map x | x in Ids(plan) :: StepPending
    modifies record
    ensures result == Raised(IllegalStep) <==> !DistinctIds(plan)
    ensures result != Raised(InvalidStep)
    ensures DistinctIds(plan) ==>
      && traces == Run(plan, ok) && record.steps.Keys == Ids(plan)
      && (forall t :: t in traces ==> t.call.id in record.steps && record.steps[t.call.id] == AtEnd(t.outcome))
      && (result.Raised? <==> forall c :: c in plan ==> c.deps != [] && !c.required)
      && (result.Raised? ==> record.status == CasePlanned)
      && (result.Finished? ==> (result.failed <==> Blocking(traces) != {}))
      && (result.Finished? ==> record.status == if result.failed then CaseFailed else CaseCompleted)
  {
    var legal, results;
    legal, traces, results := RunWaves(plan, record, ok, maxConcurrency);
    if !legal {
      return [], Raised(IllegalStep);
    }
    FinishSteps(plan, ok, record, traces, results);
    var failed := Verdict(plan, ok, record, traces);
    RaiseCondition(plan, ok);
    result := Conclude(record, failed);
  }

  lemma RaiseCondition(plan: Plan, ok: Oracle)
    ensures ExecutedIds(Run(plan, ok)) == {} && Blocking(Run(plan, ok)) == {} <==>
            forall c :: c in plan ==> c.deps != [] && !c.required
  {
    NothingRuns(plan, ok);
  }
}
