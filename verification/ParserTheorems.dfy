/** What the repair passes establish for the scheduler, and what dropping the
    post-report calls can take away again. */
module ParserTheorems {
  import opened Common
  import opened ToolPlan
  import opened Text
  import opened ToolPlanParser
  import opened WaveRun
  import opened WaveTheorems
  import opened PlanTheorems

  // ----- the dependencies after repair -----

  lemma {:induction false} KeepKnownAt(deps: seq<StepId>, known: set<StepId>, self: StepId, d: StepId)
    ensures d in KeepKnown(deps, known, self) <==> d in deps && d in known && d != self
  {
    if deps != [] {
      KeepKnownAt(deps[1..], known, self, d);
      assert d in deps <==> d == deps[0] || d in deps[1..];
    }
  }

  lemma {:induction false} KeepKnownAll(deps: seq<StepId>, known: set<StepId>, self: StepId)
    requires forall d :: d in deps ==> d in known && d != self
    ensures KeepKnown(deps, known, self) == deps
  {
    if deps != [] {
      KeepKnownAll(deps[1..], known, self);
      assert deps == [deps[0]] + deps[1..];
    }
  }

  lemma {:induction false} NormalizeIdAt(calls: Plan)
    ensures NormalizeId(calls).Some? ==> NormalizeId(calls).value in Ids(calls)
    ensures NormalizeId(calls).None? <==> forall c :: c in calls ==> !c.tool.IncidentNormalize?
  {
    if calls != [] {
      assert forall c :: c in calls <==> c == calls[0] || c in calls[1..];
      NormalizeIdAt(calls[1..]);
    }
  }

  lemma {:induction false} NormalizeIdSame(a: Plan, b: Plan)
    requires |a| == |b| && forall i :: 0 <= i < |a| ==> a[i].tool == b[i].tool && a[i].id == b[i].id
    ensures NormalizeId(a) == NormalizeId(b)
  {
    if a != [] {
      NormalizeIdSame(a[1..], b[1..]);
    }
  }

  lemma SameIds(a: Plan, b: Plan)
    requires |a| == |b| && forall i :: 0 <= i < |a| ==> a[i].id == b[i].id
    ensures Ids(a) == Ids(b)
  {
    forall x
      ensures x in Ids(a) <==> x in Ids(b)
    {
      if i :| 0 <= i < |a| && a[i].id == x {
        assert a[i] in a && b[i] in b;
      }
    }
  }

  /** The passes leave everything but the dependency lists alone, and a repaired
      call depends on exactly its known other steps and, when it reads code along
      the call chain, on the first normalize step. */
  lemma RepairedDependencies(calls: Plan, i: nat, d: StepId)
    requires i < |calls|
    ensures |Repair(calls)| == |calls| && Ids(Repair(calls)) == Ids(calls)
    ensures Repair(calls)[i] == calls[i].(deps := Repair(calls)[i].deps)
    ensures NormalizeId(Repair(calls)) == NormalizeId(calls)
    ensures d in Repair(calls)[i].deps <==>
      || (d in calls[i].deps && d in Ids(calls) && d != calls[i].id)
      || (NormalizeId(calls) == Some(d) && IsChainStep(calls[i], d))
  {
    RepairKeepsShape(calls);
    RepairedCall(calls, i, d);
  }

  lemma RepairKeepsShape(calls: Plan)
    ensures |Repair(calls)| == |calls| && Ids(Repair(calls)) == Ids(calls)
    ensures NormalizeId(Repair(calls)) == NormalizeId(calls) == NormalizeId(FilterDependencies(calls))
  {
    NormalizeIdSame(FilterDependencies(calls), calls);
    NormalizeIdSame(Repair(calls), calls);
    SameIds(Repair(calls), calls);
  }

  lemma RepairedCall(calls: Plan, i: nat, d: StepId)
    requires i < |calls|
    ensures |Repair(calls)| == |calls| && Repair(calls)[i] == calls[i].(deps := Repair(calls)[i].deps)
    ensures d in Repair(calls)[i].deps <==>
      || (d in calls[i].deps && d in Ids(calls) && d != calls[i].id)
      || (NormalizeId(calls) == Some(d) && IsChainStep(calls[i], d))
  {
    KeepKnownAt(calls[i].deps, Ids(calls), calls[i].id, d);
    NormalizeIdSame(FilterDependencies(calls), calls);
  }

  /** The scheduler's preconditions: every dependency of a repaired plan is a
      step of the plan and not the step itself. */
  lemma RepairEstablishesKnownDeps(calls: Plan)
    ensures KnownDeps(Repair(calls))
    ensures forall c :: c in Repair(calls) ==> c.id !in c.deps
  {
    var r := Repair(calls);
    forall c, d | c in r && d in c.deps
      ensures d in Ids(r) && d != c.id
    {
      RepairedLength(calls);
      var i :| 0 <= i < |r| && r[i] == c;
      RepairedDependencies(calls, i, d);
      NormalizeIdAt(calls);
    }
    forall c | c in r
      ensures c.id !in c.deps
    {
      RepairedLength(calls);
      var i :| 0 <= i < |r| && r[i] == c;
      RepairedDependencies(calls, i, c.id);
    }
  }

  lemma RepairedLength(calls: Plan)
    ensures |Repair(calls)| == |calls|
  {
    if calls != [] {
      RepairedDependencies(calls, 0, "");
    }
  }

  lemma FilterIsIdentity(calls: Plan)
    requires KnownDeps(calls) && forall c :: c in calls ==> c.id !in c.deps
    ensures FilterDependencies(calls) == calls
  {
    forall i | 0 <= i < |calls|
      ensures FilterDependencies(calls)[i] == calls[i]
    {
      assert calls[i] in calls;
      KeepKnownAll(calls[i].deps, Ids(calls), calls[i].id);
    }
  }

  /** A repaired plan needs no repair. */
  lemma RepairIsIdempotent(calls: Plan)
    ensures Repair(Repair(calls)) == Repair(calls)
  {
    var r := Repair(calls);
    RepairEstablishesKnownDeps(calls);
    FilterIsIdentity(r);
    RepairedLength(calls);
    NormalizeIdSame(r, FilterDependencies(calls));
    assert RequireNormalize(r) == r by {
      if NormalizeId(r).Some? {
        forall i | 0 <= i < |r|
          ensures RequireNormalize(r)[i] == r[i]
        {
        }
      }
    }
  }

  // ----- acyclicity through the second pass -----

  /** `x` is the id of a call that must depend on `n`. */
  ghost predicate ChainNode(calls: Plan, n: StepId, x: StepId) {
    exists c :: c in calls && c.id == x && IsChainStep(c, n)
  }

  ghost predicate Reaches(calls: Plan, n: StepId, x: StepId) {
    exists p :: Walk(calls, p) && p[0] == n && p[|p| - 1] == x
  }

  lemma RequireEdges(calls: Plan, n: StepId, x: StepId, y: StepId)
    requires NormalizeId(calls) == Some(n)
    ensures Edge(RequireNormalize(calls), x, y) <==> Edge(calls, x, y) || (y == n && ChainNode(calls, n, x))
  {
    var r := RequireNormalize(calls);
    if Edge(r, x, y) {
      var c :| c in r && c.id == x && y in c.deps;
      var i :| 0 <= i < |r| && r[i] == c;
      assert calls[i] in calls;
    }
    if Edge(calls, x, y) {
      var c :| c in calls && c.id == x && y in c.deps;
      var i :| 0 <= i < |calls| && calls[i] == c;
      assert r[i] in r;
    }
    if y == n && ChainNode(calls, n, x) {
      var c :| c in calls && c.id == x && IsChainStep(c, n);
      var i :| 0 <= i < |calls| && calls[i] == c;
      assert r[i] in r;
    }
  }

  lemma ReachesNext(calls: Plan, n: StepId, x: StepId, y: StepId)
    requires Reaches(calls, n, x) && Edge(calls, x, y)
    ensures Reaches(calls, n, y)
  {
    var p :| Walk(calls, p) && p[0] == n && p[|p| - 1] == x;
    var q := p + [y];
    forall i | 0 <= i < |q| - 1
      ensures Edge(calls, q[i], q[i + 1])
    {
      assert i < |p| - 1 ==> q[i] == p[i] && q[i + 1] == p[i + 1];
    }
    assert q[0] == n && q[|q| - 1] == y;
  }

  /** The normalize step waits, directly or not, for no chain step. */
  ghost predicate ReachesNoChain(calls: Plan, n: StepId) {
    forall x :: Reaches(calls, n, x) ==> !ChainNode(calls, n, x)
  }

  lemma ReachesStays(calls: Plan, n: StepId, x: StepId, y: StepId)
    requires NormalizeId(calls) == Some(n) && ReachesNoChain(calls, n)
    requires Reaches(calls, n, x) && Edge(RequireNormalize(calls), x, y)
    ensures Reaches(calls, n, y)
  {
    RequireEdges(calls, n, x, y);
    ReachesNext(calls, n, x, y);
  }

  lemma {:induction false} ReachesAlong(calls: Plan, n: StepId, p: seq<StepId>, i: nat, j: nat)
    requires NormalizeId(calls) == Some(n) && Walk(RequireNormalize(calls), p) && ReachesNoChain(calls, n)
    requires i <= j < |p| && Reaches(calls, n, p[i])
    ensures Reaches(calls, n, p[j])
    decreases j
  {
    if i < j {
      ReachesAlong(calls, n, p, i, j - 1);
      ReachesOneMore(calls, n, p, j - 1);
    }
  }

  lemma ReachesOneMore(calls: Plan, n: StepId, p: seq<StepId>, i: nat)
    requires NormalizeId(calls) == Some(n) && Walk(RequireNormalize(calls), p) && ReachesNoChain(calls, n)
    requires i + 1 < |p| && Reaches(calls, n, p[i])
    ensures Reaches(calls, n, p[i + 1])
  {
    WalkStep(RequireNormalize(calls), p, i, i + 1);
    ReachesStays(calls, n, p[i], p[i + 1]);
  }

  lemma ReachesItself(calls: Plan, n: StepId)
    ensures Reaches(calls, n, n)
  {
    assert Walk(calls, [n]) && [n][0] == n;
  }

  /** A cycle of the repaired plan uses no added edge. */
  lemma CycleIsOld(calls: Plan, n: StepId, p: seq<StepId>, i: nat)
    requires NormalizeId(calls) == Some(n) && ReachesNoChain(calls, n)
    requires Cycle(RequireNormalize(calls), p) && i + 1 < |p|
    ensures Edge(calls, p[i], p[i + 1])
  {
    WalkStep(RequireNormalize(calls), p, i, i + 1);
    RequireEdges(calls, n, p[i], p[i + 1]);
    if p[i + 1] == n {
      ReachesItself(calls, n);
      ReachesAlong(calls, n, p, i + 1, |p| - 1);
      ReachesAlong(calls, n, p, 0, i);
    }
  }

  lemma AcyclicAfter(calls: Plan, n: StepId)
    requires NormalizeId(calls) == Some(n) && Acyclic(calls) && ReachesNoChain(calls, n)
    ensures Acyclic(RequireNormalize(calls))
  {
    forall p
      ensures !Cycle(RequireNormalize(calls), p)
    {
      if Cycle(RequireNormalize(calls), p) {
        forall i: nat | i + 1 < |p|
          ensures Edge(calls, p[i], p[i + 1])
        {
          CycleIsOld(calls, n, p, i);
        }
        assert Cycle(calls, p);
      }
    }
  }

  /** Making the code-reading steps wait for the normalize step keeps the plan
      acyclic exactly when it was so and the normalize step waits, directly or
      not, for none of them. */
  lemma RequireKeepsAcyclicExactly(calls: Plan, n: StepId)
    requires NormalizeId(calls) == Some(n)
    ensures Acyclic(RequireNormalize(calls)) <==> Acyclic(calls) && ReachesNoChain(calls, n)
  {
    var r := RequireNormalize(calls);
    if Acyclic(r) {
      forall p
        ensures !Cycle(calls, p)
      {
        if Cycle(calls, p) {
          forall i | 0 <= i < |p| - 1
            ensures Edge(r, p[i], p[i + 1])
          {
            assert Edge(calls, p[i], p[i + 1]);
            RequireEdges(calls, n, p[i], p[i + 1]);
          }
          assert Cycle(r, p);
        }
      }
      forall x | Reaches(calls, n, x)
        ensures !ChainNode(calls, n, x)
      {
        if ChainNode(calls, n, x) {
          ChainCycle(calls, n, x);
        }
      }
    }
    if Acyclic(calls) && ReachesNoChain(calls, n) {
      AcyclicAfter(calls, n);
    }
  }

  lemma ChainCycle(calls: Plan, n: StepId, x: StepId)
    requires NormalizeId(calls) == Some(n) && Reaches(calls, n, x) && ChainNode(calls, n, x)
    ensures !Acyclic(RequireNormalize(calls))
  {
    var r := RequireNormalize(calls);
    var p :| Walk(calls, p) && p[0] == n && p[|p| - 1] == x;
    var q := p + [n];
    forall i | 0 <= i < |q| - 1
      ensures Edge(r, q[i], q[i + 1])
    {
      if i < |p| - 1 {
        assert Edge(calls, p[i], p[i + 1]);
        RequireEdges(calls, n, p[i], p[i + 1]);
      } else {
        RequireEdges(calls, n, x, n);
      }
    }
    assert Cycle(r, q);
  }

  /** From the calls as read to the runner: no gateway ever makes it report a
      dependency cycle in the repaired plan exactly when the known dependencies
      have no cycle and the first normalize step, if there is one, waits for no
      step that reads code along the call chain. */
  lemma RepairedNeverMarkedExactly(calls: Plan)
    requires DistinctIds(calls)
    ensures NeverMarked(Repair(calls)) <==>
      && Acyclic(FilterDependencies(calls))
      && (NormalizeId(calls).Some? ==> ReachesNoChain(FilterDependencies(calls), NormalizeId(calls).value))
  {
    DistinctIdsSurviveRepair(calls);
    RepairEstablishesKnownDeps(calls);
    NeverMarkedIffAcyclic(Repair(calls));
    RepairKeepsShape(calls);
    if NormalizeId(calls).Some? {
      RequireKeepsAcyclicExactly(FilterDependencies(calls), NormalizeId(calls).value);
    }
  }

  /** In particular, a normalize step without dependencies is safe. */
  lemma RootNormalizeKeepsAcyclic(calls: Plan, n: StepId)
    requires NormalizeId(calls) == Some(n) && Acyclic(calls)
    requires forall c :: c in calls && c.id == n ==> c.deps == []
    ensures Acyclic(RequireNormalize(calls))
  {
    forall x | Reaches(calls, n, x)
      ensures !ChainNode(calls, n, x)
    {
      var p :| Walk(calls, p) && p[0] == n && p[|p| - 1] == x;
      assert |p| > 1 ==> Edge(calls, p[0], p[0 + 1]);
    }
    AcyclicAfter(calls, n);
  }

  lemma RequiredPrefix(calls: Plan, n: StepId, i: nat)
    requires NormalizeId(calls) == Some(n) && i < |calls|
    ensures Ids(RequireNormalize(calls)[..i]) == Ids(calls[..i])
    ensures forall d :: d in RequireNormalize(calls)[i].deps <==>
      d in calls[i].deps || (d == n && IsChainStep(calls[i], n))
  {
    SameIds(RequireNormalize(calls)[..i], calls[..i]);
  }

  /** Earlier-only order survives exactly when every code-reading step stands
      after the normalize step. */
  lemma RequireKeepsOrderExactly(calls: Plan, n: StepId)
    requires NormalizeId(calls) == Some(n)
    ensures EarlierOnly(RequireNormalize(calls)) <==>
      && EarlierOnly(calls)
      && forall i :: 0 <= i < |calls| && IsChainStep(calls[i], n) ==> n in Ids(calls[..i])
  {
    var r := RequireNormalize(calls);
    forall i | 0 <= i < |calls|
      ensures (forall d :: d in r[i].deps ==> d in Ids(r[..i])) <==>
        (forall d :: d in calls[i].deps ==> d in Ids(calls[..i])) && (IsChainStep(calls[i], n) ==> n in Ids(calls[..i]))
    {
      RequiredPrefix(calls, n, i);
    }
  }

  // ----- generated ids -----

  lemma {:induction false} TrimmedIsSafe(s: string)
    requires forall i :: 0 <= i < |s| ==> SafeChar(s[i])
    ensures forall i :: 0 <= i < |TrimDashes(s)| ==> SafeChar(TrimDashes(s)[i])
    decreases |s|
  {
    if s != "" {
      if s[0] == '-' {
        TrimmedIsSafe(s[1..]);
      } else if s[|s| - 1] == '-' {
        TrimmedIsSafe(s[..|s| - 1]);
      }
    }
  }

  lemma {:induction false} DashedIsSafe(s: string, inRun: bool)
    ensures forall i :: 0 <= i < |Dashed(s, inRun)| ==> SafeChar(Dashed(s, inRun)[i])
  {
    if s != "" {
      DashedIsSafe(s[1..], !SafeChar(s[0]));
    }
  }

  lemma {:induction false} NumeralIsSafe(n: nat)
    ensures forall i :: 0 <= i < |Numeral(n)| ==> SafeChar(Numeral(n)[i])
  {
    if n >= 10 {
      NumeralIsSafe(n / 10);
    }
  }

  lemma GeneratedIsStripped(tool: string, idx: nat)
    ensures Strip(StepIdFromTool(tool, idx)) == StepIdFromTool(tool, idx)
  {
    var id := StepIdFromTool(tool, idx);
    DashedIsSafe(tool, false);
    TrimmedIsSafe(Dashed(tool, false));
    NumeralIsSafe(idx + 1);
    assert forall i :: 0 <= i < |id| ==> SafeChar(id[i]);
    assert id[0] == 'l';
    assert StripLeft(id) == id && StripRight(id) == id;
  }

  /** An item's id is its own one, stripped, or the generated one. */
  lemma ItemIdIs(fields: map<string, Node>, idx: nat)
    ensures ItemId(fields, idx)
      == if OwnsId(fields) then Strip(Str(fields["step_id"])) else StepIdFromTool(ItemTool(fields), idx)
  {
    GeneratedIsStripped(ItemTool(fields), idx);
  }

  /** The ids of the items: none for an item that describes no call. */
  function ItemIds(items: seq<Node>, allowed: set<string>): seq<Option<StepId>> {
    if items == [] then []
    else
      var n := |items| - 1;
      ItemIds(items[..n], allowed)
      + [if Readable(items[n], allowed) then Some(ItemId(items[n].fields, n)) else None]
  }

  lemma {:induction false} ItemIdsAt(items: seq<Node>, allowed: set<string>, k: nat)
    requires k < |items|
    ensures |ItemIds(items, allowed)| == |items|
    ensures ItemIds(items, allowed)[k]
      == if Readable(items[k], allowed) then Some(ItemId(items[k].fields, k)) else None
  {
    var n := |items| - 1;
    if k < n {
      ItemIdsAt(items[..n], allowed, k);
    } else if n > 0 {
      ItemIdsAt(items[..n], allowed, 0);
    }
  }

  function Present(ids: seq<Option<StepId>>): seq<StepId> {
    if ids == [] then []
    else
      var q, last := Present(ids[..|ids| - 1]), ids[|ids| - 1];
      if last.Some? then q + [last.value] else q
  }

  function IdList(calls: Plan): seq<StepId> {
    seq(|calls|, i requires 0 <= i < |calls| => calls[i].id)
  }

  lemma {:induction false} ReadIdList(items: seq<Node>, allowed: set<string>)
    ensures IdList(ReadCalls(items, allowed)) == Present(ItemIds(items, allowed))
  {
    if items != [] {
      var n := |items| - 1;
      var q, last := items[..n], ReadCall(items[n], n, allowed);
      ReadIdList(q, allowed);
      var id := if last.Some? then Some(last.value.id) else None;
      assert ItemIds(items, allowed) == ItemIds(q, allowed) + [id];
      PresentAppend(ItemIds(q, allowed), id);
      if last.Some? {
        IdListAppend(ReadCalls(q, allowed), last.value);
      }
    }
  }

  lemma PresentAppend(ids: seq<Option<StepId>>, id: Option<StepId>)
    ensures Present(ids + [id]) == if id.Some? then Present(ids) + [id.value] else Present(ids)
  {
    assert (ids + [id])[..|ids|] == ids;
  }

  lemma IdListAppend(calls: Plan, c: Call)
    ensures IdList(calls + [c]) == IdList(calls) + [c.id]
  {
  }

  lemma {:induction false} PresentMembers(ids: seq<Option<StepId>>, x: StepId)
    ensures x in Present(ids) <==> Some(x) in ids
  {
    if ids != [] {
      PresentMembers(ids[..|ids| - 1], x);
      assert ids == ids[..|ids| - 1] + [ids[|ids| - 1]];
    }
  }

  ghost predicate NoRepeats(xs: seq<StepId>) {
    forall i, j :: 0 <= i < j < |xs| ==> xs[i] != xs[j]
  }

  predicate PairDiffers(ids: seq<Option<StepId>>, j: nat, k: nat)
    requires j < |ids| && k < |ids|
  {
    ids[j].Some? && ids[k].Some? ==> ids[j] != ids[k]
  }

  ghost predicate PresentDiffer(ids: seq<Option<StepId>>) {
    forall j, k :: 0 <= j < k < |ids| ==> PairDiffers(ids, j, k)
  }

  lemma {:induction false} PresentDistinct(ids: seq<Option<StepId>>)
    ensures NoRepeats(Present(ids)) <==> PresentDiffer(ids)
  {
    if ids != [] {
      var n := |ids| - 1;
      var q, last := ids[..n], ids[n];
      PresentDistinct(q);
      PresentDifferStep(ids);
      if last.Some? {
        PresentMembers(q, last.value);
        NoRepeatsAppend(Present(q), last.value);
      }
    }
  }

  lemma PresentDifferStep(ids: seq<Option<StepId>>)
    requires ids != []
    ensures var n := |ids| - 1;
      PresentDiffer(ids) <==> PresentDiffer(ids[..n]) && (ids[n].Some? ==> ids[n] !in ids[..n])
  {
    var n := |ids| - 1;
    var q := ids[..n];
    if PresentDiffer(ids) {
      forall j, k | 0 <= j < k < n
        ensures PairDiffers(q, j, k)
      {
        assert PairDiffers(ids, j, k);
      }
      forall j | 0 <= j < n && ids[n].Some?
        ensures q[j] != ids[n]
      {
        assert PairDiffers(ids, j, n);
      }
    }
    if PresentDiffer(q) && (ids[n].Some? ==> ids[n] !in q) {
      forall j, k | 0 <= j < k <= n
        ensures PairDiffers(ids, j, k)
      {
        if k < n {
          assert PairDiffers(q, j, k);
        } else {
          assert q[j] in q;
        }
      }
    }
  }

  lemma NoRepeatsAppend(xs: seq<StepId>, x: StepId)
    ensures NoRepeats(xs + [x]) <==> NoRepeats(xs) && x !in xs
  {
    var all := xs + [x];
    if NoRepeats(all) {
      forall i, j | 0 <= i < j < |xs|
        ensures xs[i] != xs[j]
      {
        assert all[i] != all[j];
      }
      forall i | 0 <= i < |xs|
        ensures xs[i] != x
      {
        assert all[i] != all[|xs|];
      }
    }
  }

  /** The step ids read are those of the readable items. */
  lemma ReadIds(items: seq<Node>, allowed: set<string>, x: StepId)
    ensures x in Ids(ReadCalls(items, allowed)) <==> Some(x) in ItemIds(items, allowed)
  {
    var calls := ReadCalls(items, allowed);
    ReadIdList(items, allowed);
    PresentMembers(ItemIds(items, allowed), x);
    IdsAreListed(calls, x);
  }

  lemma IdsAreListed(calls: Plan, x: StepId)
    ensures x in Ids(calls) <==> x in IdList(calls)
  {
    if x in Ids(calls) {
      var c :| c in calls && c.id == x;
      var i :| 0 <= i < |calls| && calls[i] == c;
      assert IdList(calls)[i] == x;
    }
    if x in IdList(calls) {
      var i :| 0 <= i < |calls| && IdList(calls)[i] == x;
      assert calls[i] in calls;
    }
  }

  lemma ReadIdsDistinct(items: seq<Node>, allowed: set<string>)
    ensures DistinctIds(ReadCalls(items, allowed)) <==> PresentDiffer(ItemIds(items, allowed))
  {
    var calls := ReadCalls(items, allowed);
    ReadIdList(items, allowed);
    PresentDistinct(ItemIds(items, allowed));
    assert NoRepeats(IdList(calls)) <==> DistinctIds(calls) by {
      assert forall i :: 0 <= i < |calls| ==> IdList(calls)[i] == calls[i].id;
    }
  }

  /** The two ids cannot coincide: two own ids that differ once stripped, or an own
      id that is not the generated one. */
  predicate IdsApart(f: map<string, Node>, j: nat, g: map<string, Node>, k: nat) {
    && (OwnsId(f) && OwnsId(g) ==> Strip(Str(f["step_id"])) != Strip(Str(g["step_id"])))
    && (OwnsId(f) && !OwnsId(g) ==> Strip(Str(f["step_id"])) != StepIdFromTool(ItemTool(g), k))
    && (!OwnsId(f) && OwnsId(g) ==> StepIdFromTool(ItemTool(f), j) != Strip(Str(g["step_id"])))
  }

  lemma IdsApartExactly(f: map<string, Node>, j: nat, g: map<string, Node>, k: nat)
    requires j != k
    ensures ItemId(f, j) != ItemId(g, k) <==> IdsApart(f, j, g, k)
  {
    ItemIdIs(f, j);
    ItemIdIs(g, k);
    if StepIdFromTool(ItemTool(f), j) == StepIdFromTool(ItemTool(g), k) {
      GeneratedIdsDiffer(ItemTool(f), j, ItemTool(g), k);
    }
  }

  ghost predicate ItemsApart(items: seq<Node>, allowed: set<string>, j: nat, k: nat)
    requires j < |items| && k < |items|
  {
    Readable(items[j], allowed) && Readable(items[k], allowed) ==> IdsApart(items[j].fields, j, items[k].fields, k)
  }

  /** When the calls read have distinct step ids, the scheduler's precondition: own
      ids differ once stripped, and none is the one generated for another item.
      Generated ids never clash with each other. */
  lemma DistinctIdsExactly(items: seq<Node>, allowed: set<string>)
    ensures DistinctIds(ReadCalls(items, allowed)) <==>
      forall j, k :: 0 <= j < k < |items| ==> ItemsApart(items, allowed, j, k)
  {
    var ids := ItemIds(items, allowed);
    ReadIdsDistinct(items, allowed);
    ItemIdsLength(items, allowed);
    forall j, k | 0 <= j < k < |items|
      ensures PairDiffers(ids, j, k) <==> ItemsApart(items, allowed, j, k)
    {
      IdsApartAt(items, allowed, j, k);
    }
  }

  lemma ItemIdsLength(items: seq<Node>, allowed: set<string>)
    ensures |ItemIds(items, allowed)| == |items|
  {
    if items != [] {
      ItemIdsAt(items, allowed, 0);
    }
  }

  lemma IdsApartAt(items: seq<Node>, allowed: set<string>, j: nat, k: nat)
    requires j < k < |items| && |ItemIds(items, allowed)| == |items|
    ensures PairDiffers(ItemIds(items, allowed), j, k) <==> ItemsApart(items, allowed, j, k)
  {
    ItemIdsAt(items, allowed, j);
    ItemIdsAt(items, allowed, k);
    if Readable(items[j], allowed) && Readable(items[k], allowed) {
      IdsApartExactly(items[j].fields, j, items[k].fields, k);
    }
  }

  /** A readable item whose own step id is only spaces. */
  predicate GivesBlankId(n: Node, allowed: set<string>) {
    Readable(n, allowed) && OwnsId(n.fields) && Strip(Str(n.fields["step_id"])) == ""
  }

  /** A parsed plan has a blank step id exactly when some readable item gives one
      that is not empty but blank. */
  lemma BlankIdExactly(items: seq<Node>, allowed: set<string>)
    ensures "" in Ids(Repair(ReadCalls(items, allowed)))
      <==> exists k :: 0 <= k < |items| && GivesBlankId(items[k], allowed)
  {
    var ids := ItemIds(items, allowed);
    RepairKeepsShape(ReadCalls(items, allowed));
    ReadIds(items, allowed, "");
    ItemIdsLength(items, allowed);
    forall k | 0 <= k < |items|
      ensures ids[k] == Some("") <==> GivesBlankId(items[k], allowed)
    {
      BlankAt(items, allowed, k);
    }
  }

  lemma BlankAt(items: seq<Node>, allowed: set<string>, k: nat)
    requires k < |items| == |ItemIds(items, allowed)|
    ensures ItemIds(items, allowed)[k] == Some("") <==> GivesBlankId(items[k], allowed)
  {
    ItemIdsAt(items, allowed, k);
    if Readable(items[k], allowed) {
      ItemIdIs(items[k].fields, k);
      assert |StepIdFromTool(ItemTool(items[k].fields), k)| >= 4;
    }
  }

  /** The passes keep step ids distinct. */
  lemma DistinctIdsSurviveRepair(calls: Plan)
    requires DistinctIds(calls)
    ensures DistinctIds(Repair(calls))
  {
    var r := Repair(calls);
    RepairedLength(calls);
    forall i, j | 0 <= i < j < |r|
      ensures r[i].id != r[j].id
    {
      assert r[i].id == calls[i].id && r[j].id == calls[j].id;
    }
  }

  // ----- dropping the post-report calls -----

  function WithoutPostReportTools(calls: Plan): Plan {
    if calls == [] then []
    else (if !calls[0].tool.NotifySend? then [calls[0]] else []) + WithoutPostReportTools(calls[1..])
  }

  lemma {:induction false} KeptAt(calls: Plan)
    ensures forall c :: c in WithoutPostReportTools(calls) <==> c in calls && !c.tool.NotifySend?
    ensures DistinctIds(calls) ==> DistinctIds(WithoutPostReportTools(calls))
  {
    if calls != [] {
      KeptAt(calls[1..]);
      assert forall c :: c in calls <==> c == calls[0] || c in calls[1..];
      var rest := WithoutPostReportTools(calls[1..]);
      if DistinctIds(calls) {
        forall k | 0 <= k < |rest|
          ensures rest[k].id != calls[0].id
        {
          assert rest[k] in calls[1..];
        }
      }
    }
  }

  ghost predicate DependsOnDropped(calls: Plan) {
    exists c, e :: c in calls && e in calls && !c.tool.NotifySend? && e.tool.NotifySend?
                && e.id in c.deps
  }

  lemma CycleOfMore(kept: Plan, calls: Plan, p: seq<StepId>)
    requires Cycle(kept, p) && forall c :: c in kept ==> c in calls
    ensures Cycle(calls, p)
  {
    forall i, j | 0 <= i && j == i + 1 && j < |p|
      ensures Edge(calls, p[i], p[j])
    {
      WalkStep(kept, p, i, j);
    }
  }

  /** After the drop a sound plan is still never reported as cyclic exactly when
      no kept step waited for a dropped one. */
  lemma DropNeverMarkedExactly(calls: Plan)
    requires DistinctIds(calls) && KnownDeps(calls) && Acyclic(calls)
    ensures NeverMarked(WithoutPostReportTools(calls)) <==> !DependsOnDropped(calls)
  {
    var kept := WithoutPostReportTools(calls);
    KeptAt(calls);
    NeverMarkedIffAcyclic(kept);
    forall p
      ensures !Cycle(kept, p)
    {
      if Cycle(kept, p) {
        CycleOfMore(kept, calls, p);
      }
    }
    forall e | e in calls && e.tool.NotifySend?
      ensures e.id !in Ids(kept)
    {
      forall k | k in kept
        ensures k.id != e.id
      {
        if k.id == e.id {
          SameId(calls, k, e);
        }
      }
    }
    if !DependsOnDropped(calls) {
      forall c, d | c in kept && d in c.deps
        ensures d in Ids(kept)
      {
        assert c in calls && d in Ids(calls);
        var e :| e in calls && e.id == d;
        assert e in kept;
      }
      assert KnownDeps(kept);
    }
    assert KnownDeps(kept) <==> !DependsOnDropped(calls);
    assert Acyclic(kept);
  }
}
