/** The wave scheduler as a function from traces to traces.

    Everything the scheduler remembers is a function of the traces it has
    recorded: a step is finished when it has a trace, and it blocks its
    dependents when its trace is that of a required call that did not succeed. */
module WaveRun {
  import opened ToolPlan

  datatype Outcome = Executed(ok: bool) | DependencyFailed | DependencyCycle

  /** A recorded trace.  `call` carries the plan metadata of the trace; `wave`
      numbers the iteration of the loop that recorded it. */
  datatype Trace = Trace(call: Call, outcome: Outcome, wave: nat)

  /** The gateway: which steps would succeed if they were executed. */
  type Oracle = StepId -> bool

  function Done(tr: seq<Trace>): set<StepId> {
    set t | t in tr :: t.call.id
  }

  predicate Blocks(t: Trace) {
    t.call.required && t.outcome != Executed(true)
  }

  function Blocking(tr: seq<Trace>): set<StepId> {
    set t | t in tr && Blocks(t) :: t.call.id
  }

  /** The calls of `cs` without a trace, in order. */
  function Unfinished(cs: seq<Call>, done: set<StepId>): seq<Call> {
    if cs == [] then []
    else (if cs[0].id in done then [] else [cs[0]]) + Unfinished(cs[1..], done)
  }

  predicate IsBlocked(c: Call, blocking: set<StepId>) {
    exists d :: d in c.deps && d in blocking
  }

  predicate IsReady(c: Call, done: set<StepId>) {
    forall d :: d in c.deps ==> d in done
  }

  /** One look at every pending call in plan order; a skipped call may block a
      call that is looked at later in the same pass. */
  function SkipPass(cs: seq<Call>, w: nat, tr: seq<Trace>): seq<Trace> {
    if cs == [] then tr
    else
      SkipPass(cs[1..], w,
               if IsBlocked(cs[0], Blocking(tr)) then tr + [Trace(cs[0], DependencyFailed, w)] else tr)
  }

  function Ready(cs: seq<Call>, done: set<StepId>): seq<Call> {
    if cs == [] then []
    else if IsReady(cs[0], done) then [cs[0]] + Ready(cs[1..], done)
    else Ready(cs[1..], done)
  }

  function CyclePass(cs: seq<Call>, w: nat): seq<Trace> {
    seq(|cs|, i requires 0 <= i < |cs| => Trace(cs[i], DependencyCycle, w))
  }

  function ExecutePass(cs: seq<Call>, ok: Oracle, w: nat): seq<Trace> {
    seq(|cs|, i requires 0 <= i < |cs| => Trace(cs[i], Executed(ok(cs[i].id)), w))
  }

  /** One iteration of the loop. */
  function Wave(plan: Plan, ok: Oracle, w: nat, tr: seq<Trace>): seq<Trace> {
    var skipped := SkipPass(Unfinished(plan, Done(tr)), w, tr);
    var pending := Unfinished(plan, Done(skipped));
    var ready := Ready(pending, Done(skipped));
    if ready != [] then skipped + ExecutePass(ready, ok, w)
    else if |skipped| > |tr| then skipped
    else skipped + CyclePass(pending, w)
  }

  /** The loop, from traces `tr` on. */
  function RunFrom(plan: Plan, ok: Oracle, w: nat, tr: seq<Trace>): seq<Trace>
    decreases Ids(plan) - Done(tr)
  {
    if Unfinished(plan, Done(tr)) == [] then tr
    else
      WaveProgress(plan, ok, w, tr);
      RunFrom(plan, ok, w + 1, Wave(plan, ok, w, tr))
  }

  function Run(plan: Plan, ok: Oracle): seq<Trace> {
    RunFrom(plan, ok, 0, [])
  }

  // ----- the passes -----

  lemma {:induction false} UnfinishedAt(cs: seq<Call>, done: set<StepId>)
    ensures forall c :: c in Unfinished(cs, done) <==> c in cs && c.id !in done
    ensures Unfinished(cs, done) == [] <==> forall c :: c in cs ==> c.id in done
  {
    if cs != [] {
      UnfinishedAt(cs[1..], done);
      assert forall c :: c in cs <==> c == cs[0] || c in cs[1..];
    }
  }

  lemma {:induction false} ReadyAt(cs: seq<Call>, done: set<StepId>)
    ensures forall c :: c in Ready(cs, done) <==> c in cs && IsReady(c, done)
  {
    if cs != [] {
      ReadyAt(cs[1..], done);
      assert forall c :: c in cs <==> c == cs[0] || c in cs[1..];
    }
  }

  /** The skip pass only appends, and only calls it was given. */
  lemma {:induction false} SkipPassAppends(cs: seq<Call>, w: nat, tr: seq<Trace>)
    ensures tr <= SkipPass(cs, w, tr)
    ensures forall k :: |tr| <= k < |SkipPass(cs, w, tr)| ==>
      var t := SkipPass(cs, w, tr)[k];
      t.call in cs && t.outcome == DependencyFailed && t.wave == w
    decreases |cs|
  {
    if cs != [] {
      var tr' := if IsBlocked(cs[0], Blocking(tr)) then tr + [Trace(cs[0], DependencyFailed, w)] else tr;
      SkipPassAppends(cs[1..], w, tr');
      var r := SkipPass(cs, w, tr);
      forall k | |tr| <= k < |r|
        ensures r[k].call in cs && r[k].outcome == DependencyFailed && r[k].wave == w
      {
        if k < |tr'| {
          assert r[k] == tr'[k];
        } else {
          assert r[k].call in cs[1..];
        }
      }
    }
  }

  lemma DoneGrows(tr: seq<Trace>, tr': seq<Trace>)
    requires tr <= tr'
    ensures Done(tr) <= Done(tr') && Blocking(tr) <= Blocking(tr')
  {
    forall t | t in tr
      ensures t in tr'
    {
      var k :| 0 <= k < |tr| && tr[k] == t;
      assert tr'[k] == t;
    }
  }

  /** A wave extends the traces, by calls that had none. */
  lemma WaveExtends(plan: Plan, ok: Oracle, w: nat, tr: seq<Trace>)
    ensures tr <= Wave(plan, ok, w, tr)
    ensures forall k :: |tr| <= k < |Wave(plan, ok, w, tr)| ==>
      Wave(plan, ok, w, tr)[k].call in Unfinished(plan, Done(tr))
  {
    var cs := Unfinished(plan, Done(tr));
    var skipped := SkipPass(cs, w, tr);
    SkipPassAppends(cs, w, tr);
    DoneGrows(tr, skipped);
    ReadyIsUnfinished(plan, Done(tr), Done(skipped));
  }

  lemma ReadyIsUnfinished(plan: Plan, done: set<StepId>, later: set<StepId>)
    requires done <= later
    ensures forall c :: c in Unfinished(plan, later) ==> c in Unfinished(plan, done)
    ensures forall c :: c in Ready(Unfinished(plan, later), later) ==> c in Unfinished(plan, done)
  {
    UnfinishedAt(plan, done);
    UnfinishedAt(plan, later);
    ReadyAt(Unfinished(plan, later), later);
  }

  /** A wave with something pending finishes at least one pending step. */
  lemma WaveProgress(plan: Plan, ok: Oracle, w: nat, tr: seq<Trace>)
    requires Unfinished(plan, Done(tr)) != []
    ensures Ids(plan) - Done(Wave(plan, ok, w, tr)) < Ids(plan) - Done(tr)
    ensures |Wave(plan, ok, w, tr)| > |tr|
  {
    WaveExtends(plan, ok, w, tr);
    var r := Wave(plan, ok, w, tr);
    DoneGrows(tr, r);
    UnfinishedAt(plan, Done(tr));
    var cs := Unfinished(plan, Done(tr));
    SkipPassAppends(cs, w, tr);
    var skipped := SkipPass(cs, w, tr);
    if |skipped| == |tr| {
      assert skipped == tr;
    }
    assert |r| > |tr|;
    var t := r[|tr|];
    assert t in r && t.call in plan && t.call.id !in Done(tr);
    assert t.call.id in Done(r) && t.call.id in Ids(plan);
  }
}
