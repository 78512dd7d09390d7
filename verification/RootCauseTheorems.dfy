/** Properties of whole analyses. */
module RootCauseTheorems {
  import opened Common
  import opened Evidence
  import opened Sorting
  import opened HypothesisGenerator
  import opened HypothesisTheorems
  import opened EvidenceWeighting
  import opened HypothesisValidator
  import opened ConvergenceChecker
  import opened RootCauseEngine

  // ----- the loop ends, converged -----

  lemma {:induction false} LastRoundConverges(items: seq<EvidenceItem>, before: seq<Weighted>, iteration: int,
                                              maxIters: int, t: Thresholds, o: Texts, f: Fresh)
    requires iteration <= maxIters
    ensures var r := LastRound(items, before, iteration, maxIters, t, o, f);
      r.convergence.isConverged && iteration <= r.iteration <= maxIters
    decreases maxIters - iteration
  {
    var r := OneRound(items, before, iteration, maxIters, t, o);
    if !r.convergence.isConverged {
      LastRoundConverges(Synthesize(items, r.weighted, f, iteration), r.weighted, iteration + 1, maxIters, t, o, f);
    }
  }

  /** The last round is a round: of some pack, with some weights before it. */
  lemma {:induction false} LastRoundIsRound(items: seq<EvidenceItem>, before: seq<Weighted>, iteration: int,
                                            maxIters: int, t: Thresholds, o: Texts, f: Fresh)
    returns (pack: seq<EvidenceItem>, weights: seq<Weighted>)
    requires iteration <= maxIters && items != []
    ensures var r := LastRound(items, before, iteration, maxIters, t, o, f);
      pack != [] && r == OneRound(pack, weights, r.iteration, maxIters, t, o)
    decreases maxIters - iteration
  {
    var r := OneRound(items, before, iteration, maxIters, t, o);
    if r.convergence.isConverged {
      pack, weights := items, before;
    } else {
      pack, weights := LastRoundIsRound(
        Synthesize(items, r.weighted, f, iteration), r.weighted, iteration + 1, maxIters, t, o, f);
    }
  }

  // ----- the pack only grows, by the derived items -----

  /** The items derived in iterations from+1 to upTo. */
  function DerivedItems(f: Fresh, from: int, upTo: int): seq<EvidenceItem>
    requires from <= upTo
    decreases upTo - from
  {
    if from == upTo then [] else [Derived(f, from)] + DerivedItems(f, from + 1, upTo)
  }

  ghost predicate NoneDerivedFrom(items: seq<EvidenceItem>, n: int) {
    forall e :: e in items ==> e.derivedIn.None? || e.derivedIn.value < n
  }

  /** Each iteration but the last adds exactly the item it derives. */
  lemma {:induction false} PackGrowsByDerived(items: seq<EvidenceItem>, before: seq<Weighted>, iteration: int,
                                              maxIters: int, t: Thresholds, o: Texts, f: Fresh)
    requires iteration <= maxIters && items != [] && NoneDerivedFrom(items, iteration)
    ensures var r := LastRound(items, before, iteration, maxIters, t, o, f);
      iteration <= r.iteration && r.items == items + DerivedItems(f, iteration, r.iteration)
    decreases maxIters - iteration
  {
    var r := OneRound(items, before, iteration, maxIters, t, o);
    if !r.convergence.isConverged {
      var next := Synthesize(items, r.weighted, f, iteration);
      SynthesizeAdds(items, f, iteration);
      PackGrowsByDerived(next, r.weighted, iteration + 1, maxIters, t, o, f);
      var last := LastRound(next, r.weighted, iteration + 1, maxIters, t, o, f);
      DerivedStep(items, f, iteration, last.iteration);
    }
  }

  lemma SynthesizeAdds(items: seq<EvidenceItem>, f: Fresh, iteration: int)
    requires items != [] && NoneDerivedFrom(items, iteration)
    ensures var next := Synthesize(items, Weights(items, Combined, DefaultTypeWeight), f, iteration);
      next == items + [Derived(f, iteration)] && NoneDerivedFrom(next, iteration + 1)
  {
    assert |Weights(items, Combined, DefaultTypeWeight)| == |items|;
  }

  lemma DerivedStep(items: seq<EvidenceItem>, f: Fresh, from: int, upTo: int)
    requires from < upTo
    ensures (items + [Derived(f, from)]) + DerivedItems(f, from + 1, upTo) == items + DerivedItems(f, from, upTo)
  {
  }

  lemma SynthesizeExtends(items: seq<EvidenceItem>, ws: seq<Weighted>, f: Fresh, iteration: int)
    ensures items <= Synthesize(items, ws, f, iteration)
  {
  }

  /** Whatever the pack held, its items stay, in place, at the front. */
  lemma {:induction false} OriginalsStayInFront(items: seq<EvidenceItem>, before: seq<Weighted>, iteration: int,
                                                maxIters: int, t: Thresholds, o: Texts, f: Fresh)
    requires iteration <= maxIters
    ensures items <= LastRound(items, before, iteration, maxIters, t, o, f).items
    decreases maxIters - iteration
  {
    var r := OneRound(items, before, iteration, maxIters, t, o);
    if !r.convergence.isConverged {
      SynthesizeExtends(items, r.weighted, f, iteration);
      OriginalsStayInFront(Synthesize(items, r.weighted, f, iteration), r.weighted, iteration + 1, maxIters, t, o, f);
    }
  }

  // ----- distinct ids -----

  /** Derived ids are new: no two iterations share one and no given item has one. */
  ghost predicate FreshFor(f: Fresh, items: seq<EvidenceItem>, iteration: int) {
    && (forall i, j :: iteration <= i < j ==> f.id(i) != f.id(j))
    && forall i, e :: iteration <= i && e in items ==> e.id != f.id(i)
  }

  lemma SynthesizeKeepsDistinct(items: seq<EvidenceItem>, ws: seq<Weighted>, f: Fresh, iteration: int)
    requires DistinctItems(items) && FreshFor(f, items, iteration)
    ensures DistinctItems(Synthesize(items, ws, f, iteration))
    ensures FreshFor(f, Synthesize(items, ws, f, iteration), iteration + 1)
  {
    assert forall i :: 0 <= i < |items| ==> items[i] in items;
  }

  lemma {:induction false} LastRoundIsDistinct(items: seq<EvidenceItem>, before: seq<Weighted>, iteration: int,
                                               maxIters: int, t: Thresholds, o: Texts, f: Fresh)
    requires iteration <= maxIters && DistinctItems(items) && FreshFor(f, items, iteration)
    ensures DistinctItems(LastRound(items, before, iteration, maxIters, t, o, f).items)
    decreases maxIters - iteration
  {
    var r := OneRound(items, before, iteration, maxIters, t, o);
    if !r.convergence.isConverged {
      SynthesizeKeepsDistinct(items, r.weighted, f, iteration);
      LastRoundIsDistinct(Synthesize(items, r.weighted, f, iteration), r.weighted, iteration + 1, maxIters, t, o, f);
    }
  }

  // ----- the confidence of the conclusion -----

  /** Hypotheses of different rules are found by their rule. */
  lemma {:induction false} FoundByOrigin(hs: seq<Hypothesis>, h: Hypothesis)
    requires Apart(hs) && h in hs
    ensures FindHypothesis(hs, h.origin) == Some(h)
  {
    if hs[0] != h {
      assert hs == [hs[0]] + hs[1..];
      FoundByOrigin(hs[1..], h);
    }
  }

  lemma Product(c: real, w: real)
    requires 0.0 <= c && 0.0 <= w <= 1.0
    ensures 0.0 <= c * w <= c && c * (0.75 + 0.25 * w) == 0.75 * c + 0.25 * (c * w)
  {
  }

  lemma ScaledConfidence(c: real, w: real)
    requires 0.0 <= c <= 0.9 && 0.0 <= w <= 1.0
    ensures 0.75 * c <= Reduced(c, w) <= c
  {
    Product(c, w);
  }

  lemma AnalysisPackIsDistinct(items: seq<EvidenceItem>, before: seq<Weighted>, t: Thresholds, iteration: int)
    requires DistinctItems(items)
    ensures DistinctItems(AnalysisPack(items, before, t, iteration))
  {
    KeepDistinct(items, InSet(KeptIds(before, t, iteration)));
  }

  lemma HypothesisWeight(items: seq<EvidenceItem>, cites: seq<string>)
    requires items != [] && NoRepeat(cites)
    ensures 0.0 <= AggregateWeight(cites, Weights(items, Combined, DefaultTypeWeight)) <= 1.0
  {
    DefaultsArePositive();
    WeightsSumToOne(items, Combined, DefaultTypeWeight);
    AggregateAtMostTotal(cites, Weights(items, Combined, DefaultTypeWeight));
  }

  /** A cited item carries weight. */
  lemma {:induction false} LookupPositive(ws: seq<Weighted>, id: string)
    requires forall w :: w in ws ==> w.weight > 0.0
    requires exists w :: w in ws && w.item.id == id
    ensures Lookup(ws, id) > 0.0
  {
    var n := |ws| - 1;
    if ws[n].item.id != id {
      var w :| w in ws && w.item.id == id;
      assert ws == ws[..n] + [ws[n]];
      LookupPositive(ws[..n], id);
    }
  }

  lemma CitedWeight(items: seq<EvidenceItem>, cites: seq<string>)
    requires cites != [] && exists e :: e in items && e.id == cites[|cites| - 1]
    ensures AggregateWeight(cites, Weights(items, Combined, DefaultTypeWeight)) > 0.0
  {
    var ws := Weights(items, Combined, DefaultTypeWeight);
    DefaultsArePositive();
    WeightsSumToOne(items, Combined, DefaultTypeWeight);
    var e :| e in items && e.id == cites[|cites| - 1];
    var i :| 0 <= i < |items| && items[i] == e;
    assert ws[i] in ws;
    LookupPositive(ws, cites[|cites| - 1]);
    AggregateNonNegative(cites[..|cites| - 1], ws);
  }

  /** What the conclusion is drawn from: the hypothesis whose validation leads. */
  ghost predicate Leads(h: Hypothesis, hs: seq<Hypothesis>, items: seq<EvidenceItem>, o: Texts) {
    && h in hs && Ranked(hs, items, o) != []
    && Ranked(hs, items, o)[0] == Validation(h, items, o)
    && FindHypothesis(hs, Ranked(hs, items, o)[0].origin) == Some(h)
  }

  /** In a round, the conclusion's confidence is that of the leading hypothesis,
      scaled by the weight of what that hypothesis cites. */
  lemma RoundConfidence(items: seq<EvidenceItem>, before: seq<Weighted>, iteration: int, maxIters: int,
                        t: Thresholds, o: Texts) returns (h: Hypothesis)
    requires DistinctItems(items) && items != []
    ensures var r := OneRound(items, before, iteration, maxIters, t, o);
      var c, w := Validation(h, items, o).confidence, AggregateWeight(h.cites, r.weighted);
      && Leads(h, r.hypotheses, items, o)
      && 0.0 <= c <= 0.9 && 0.0 < w <= 1.0
      && ConclusionConfidence(r.hypotheses, r.validations, r.weighted) == Reduced(c, w)
  {
    var pack := AnalysisPack(items, before, t, iteration);
    var hs := Generated(pack, o);
    AnalysisPackIsDistinct(items, before, t, iteration);
    EvidenceIsDivided(pack, o);
    h := TopValidation(hs, items, o);
    FoundByOrigin(hs, h);
    PackIsFromItems(items, before, t, iteration);
    CitedFromItems(h, pack, items);
    HypothesisWeight(items, h.cites);
    ConclusionIs(hs, Ranked(hs, items, o), items, h);
  }

  lemma PackIsFromItems(items: seq<EvidenceItem>, before: seq<Weighted>, t: Thresholds, iteration: int)
    requires items != []
    ensures var pack := AnalysisPack(items, before, t, iteration);
      pack != [] && forall e :: e in pack ==> e in items
  {
    forall e | e in Keep(items, InSet(KeptIds(before, t, iteration)))
      ensures e in items
    {
      KeepMembers(items, InSet(KeptIds(before, t, iteration)), e);
    }
  }

  lemma CitedFromItems(h: Hypothesis, pack: seq<EvidenceItem>, items: seq<EvidenceItem>)
    requires h.cites != [] && CitesFromPack(h, pack) && forall e :: e in pack ==> e in items
    ensures AggregateWeight(h.cites, Weights(items, Combined, DefaultTypeWeight)) > 0.0
  {
    var x := h.cites[|h.cites| - 1];
    assert x in h.cites;
    var e :| e in pack && e.id == x;
    assert e in items;
    CitedWeight(items, h.cites);
  }

  lemma ConclusionIs(hs: seq<Hypothesis>, vs: seq<ValidationResult>, items: seq<EvidenceItem>, h: Hypothesis)
    requires hs != [] && vs != [] && items != [] && FindHypothesis(hs, vs[0].origin) == Some(h)
    requires var w := AggregateWeight(h.cites, Weights(items, Combined, DefaultTypeWeight));
      0.0 <= vs[0].confidence <= 0.9 && 0.0 < w <= 1.0
    ensures var ws := Weights(items, Combined, DefaultTypeWeight);
      ConclusionConfidence(hs, vs, ws) == Reduced(vs[0].confidence, AggregateWeight(h.cites, ws))
  {
    ScaledConfidence(vs[0].confidence, AggregateWeight(h.cites, Weights(items, Combined, DefaultTypeWeight)));
  }

  // ----- main results -----

  /** For a pack with evidence, analysis ends converged within the limit; the
      original items are a prefix of the final pack, followed by exactly the items
      the iterations before the last derived, when none was derived before. */
  lemma AnalysisConverges(items: seq<EvidenceItem>, maxIterations: int, t: Thresholds, o: Texts, f: Fresh)
    requires items != []
    ensures var a := Analysis(items, maxIterations, t, o, f);
      && a.isConverged && 1 <= a.iterations <= MaxIters(maxIterations) && items <= a.items
      && (NoneDerivedFrom(items, 1) ==> a.items == items + DerivedItems(f, 1, a.iterations))
  {
    LastRoundConverges(items, [], 1, MaxIters(maxIterations), t, o, f);
    OriginalsStayInFront(items, [], 1, MaxIters(maxIterations), t, o, f);
    if NoneDerivedFrom(items, 1) {
      PackGrowsByDerived(items, [], 1, MaxIters(maxIterations), t, o, f);
    }
  }

  /** With distinct ids, the conclusion is about the hypothesis h whose validation
      leads the ranking, and no other: its confidence is that of the validation, c,
      times 0.75 plus a quarter of the weight of what h cites.  That weight is
      positive and at most one, so the result lies between 0.75 * c and c, and c
      between 0 and 0.9. */
  lemma ConfidenceIsBounded(items: seq<EvidenceItem>, maxIterations: int, t: Thresholds, o: Texts, f: Fresh)
    returns (h: Hypothesis)
    requires items != [] && DistinctItems(items) && FreshFor(f, items, 1)
    ensures var a := Analysis(items, maxIterations, t, o, f);
      var c := Validation(h, a.items, o).confidence;
      var w := AggregateWeight(h.cites, Weights(a.items, Combined, DefaultTypeWeight));
      && Leads(h, a.hypotheses, a.items, o)
      && 0.0 <= c <= 0.9 && 0.0 < w <= 1.0
      && a.confidence == Reduced(c, w) && 0.75 * c <= a.confidence <= c
  {
    var n := MaxIters(maxIterations);
    LastRoundIsDistinct(items, [], 1, n, t, o, f);
    var r := LastRound(items, [], 1, n, t, o, f);
    var pack, weights := LastRoundIsRound(items, [], 1, n, t, o, f);
    h := RoundConfidence(pack, weights, r.iteration, n, t, o);
    ScaledConfidence(Validation(h, pack, o).confidence, AggregateWeight(h.cites, r.weighted));
  }

  /** With the default thresholds a round before the limit converges exactly when
      its pack has three items, the leading hypothesis has three supporting items
      and no contradicting one, and every other hypothesis is at least 0.2 behind. */
  lemma EarlyConvergenceExactly(items: seq<EvidenceItem>, before: seq<Weighted>, iteration: int, maxIters: int,
                                o: Texts)
    requires iteration < maxIters
    ensures var r := OneRound(items, before, iteration, maxIters, DEFAULTS, o);
      r.convergence.isConverged <==>
        && |items| >= 3 && r.validations != []
        && r.validations[0].supporting >= 3 && r.validations[0].contradicting == 0
        && forall k :: 1 <= k < |r.validations| ==> r.validations[0].confidence - r.validations[k].confidence >= 0.2
  {
    var hs := OneRound(items, before, iteration, maxIters, DEFAULTS, o).hypotheses;
    var vs := Ranked(hs, items, o);
    RankedIsSorted(hs, items, o);
    if vs != [] {
      var h := RankedMember(hs, items, o, 0);
      ThresholdMeansThreeSupporters(|Supporters(h, items, o)|, Contradictions(h, items, o));
      DefaultCheck(vs, |items|, iteration, maxIters);
    }
  }

  lemma DefaultCheck(vs: seq<ValidationResult>, evidence: nat, iteration: int, maxIters: int)
    requires iteration < maxIters && vs != [] && SortedBy(vs, MoreConfident)
    ensures Check(DEFAULTS, vs, evidence, iteration, maxIters).isConverged <==>
      && evidence >= 3 && vs[0].confidence >= 0.7
      && forall k :: 1 <= k < |vs| ==> vs[0].confidence - vs[k].confidence >= 0.2
  {
    if |vs| >= 2 {
      GapOfRanked(vs);
      assert forall k :: 1 < k < |vs| ==> MoreConfident(vs[1], vs[k]);
    }
  }

  /** Narrowing keeps the heaviest: no item left out weighs more than one kept. */
  lemma FocusKeepsHeaviest(ws: seq<Weighted>, t: Thresholds, iteration: int, kept: Weighted, dropped: Weighted)
    requires kept in ws && dropped in ws
    requires forall v, w :: v in ws && w in ws && v.item.id == w.item.id ==> v == w
    requires kept.item.id in KeptIds(ws, t, iteration) && dropped.item.id !in KeptIds(ws, t, iteration)
    ensures Heavier(kept, dropped)
  {
    var ranked := Sort(ws, Heavier);
    HeavierIsPreorder();
    SortSorts(ws, Heavier);
    SortMembers(ws, Heavier);
    var i, n := KeptAt(ws, t, iteration, kept.item.id);
    var j :| 0 <= j < |ranked| && ranked[j] == dropped;
    assert ranked[i] in ranked;
    assert i < n <= j;
  }

  /** A later iteration keeps at least what an earlier one would have kept. */
  lemma FocusWidens(ws: seq<Weighted>, t: Thresholds, iteration: int, id: string)
    requires id in KeptIds(ws, t, iteration)
    ensures id in KeptIds(ws, t, iteration + 1)
  {
    var ranked := Sort(ws, Heavier);
    var small, large := KeepCount(|ranked|, t, iteration), KeepCount(|ranked|, t, iteration + 1);
    var top := if |ranked| <= small then ranked else ranked[..small];
    var w :| w in top && w.item.id == id;
    var i :| 0 <= i < |top| && top[i] == w;
    var wider := if |ranked| <= large then ranked else ranked[..large];
    assert wider[i] == w;
    assert w in wider;
  }

  lemma HeavierIsPreorder()
    ensures TotalPreorder(Heavier)
  {
  }

  /** The kept ids are those of the first n entries of the ranking. */
  lemma KeptAt(ws: seq<Weighted>, t: Thresholds, iteration: int, id: string) returns (i: nat, n: nat)
    requires id in KeptIds(ws, t, iteration)
    ensures i < n <= |ws| && Sort(ws, Heavier)[i].item.id == id
    ensures forall x :: 0 <= x < n ==> Sort(ws, Heavier)[x].item.id in KeptIds(ws, t, iteration)
  {
    var ranked := Sort(ws, Heavier);
    var keep := KeepCount(|ranked|, t, iteration);
    var top := if |ranked| <= keep then ranked else ranked[..keep];
    n := |top|;
    var w :| w in top && w.item.id == id;
    i :| 0 <= i < n && top[i] == w;
    forall x | 0 <= x < n
      ensures ranked[x].item.id in KeptIds(ws, t, iteration)
    {
      assert top[x] in top;
    }
  }
}
