/** The analysis loop: generate, validate, weigh, check for convergence, and go
    round again with derived evidence. */
module RootCauseEngine {
  import opened Common
  import opened Evidence
  import opened Sorting
  import opened HypothesisGenerator
  import opened EvidenceWeighting
  import opened HypothesisValidator
  import opened ConvergenceChecker

  /** The fresh id and the collection time of the item an iteration derives. */
  datatype Fresh = Fresh(id: int -> string, at: int -> int)

  predicate Heavier(a: Weighted, b: Weighted) {
    a.weight >= b.weight
  }

  /** How many of the heaviest items an iteration looks at. */
  function KeepCount(available: nat, t: Thresholds, iteration: int): nat {
    var wanted := t.minEvidence + iteration - 1;
    var most := if wanted < available then wanted else available;
    if most < 1 then 1 else most
  }

  function KeptIds(ws: seq<Weighted>, t: Thresholds, iteration: int): set<string> {
    var ranked := Sort(ws, Heavier);
    var n := KeepCount(|ranked|, t, iteration);
    set w | w in (if |ranked| <= n then ranked else ranked[..n]) :: w.item.id
  }

  function InSet(ids: set<string>): EvidenceItem -> bool {
    (e: EvidenceItem) => e.id in ids
  }

  /** The pack narrowed to its heaviest items. */
  function Focus(items: seq<EvidenceItem>, ws: seq<Weighted>, t: Thresholds, iteration: int): seq<EvidenceItem> {
    var focused := Keep(items, InSet(KeptIds(ws, t, iteration)));
    if focused == [] then items else focused
  }

  function Derived(f: Fresh, iteration: int): EvidenceItem {
    EvidenceItem(f.id(iteration), Other, f.at(iteration), Some(iteration))
  }

  /** The pack with the item derived in this iteration, unless it has one. */
  function Synthesize(items: seq<EvidenceItem>, ws: seq<Weighted>, f: Fresh, iteration: int): seq<EvidenceItem> {
    if ws == [] then items
    else if exists e :: e in items && e.derivedIn == Some(iteration) then items
    else items + [Derived(f, iteration)]
  }

  /** The first hypothesis with this origin. */
  function FindHypothesis(hs: seq<Hypothesis>, origin: Origin): Option<Hypothesis> {
    if hs == [] then None
    else if hs[0].origin == origin then Some(hs[0])
    else FindHypothesis(hs[1..], origin)
  }

  /** All of the confidence at full weight, three quarters of it at none. */
  function Reduced(confidence: real, weight: real): real {
    confidence * (0.75 + 0.25 * weight)
  }

  /** The confidence of the conclusion: that of the top validation, reduced the
      less weight the top hypothesis's evidence carries. */
  function ConclusionConfidence(hs: seq<Hypothesis>, vs: seq<ValidationResult>, ws: seq<Weighted>): real {
    if hs == [] then 0.0
    else if vs == [] then 0.5
    else
      var found := FindHypothesis(hs, vs[0].origin);
      var top := if found.Some? then found.value else hs[0];
      var weight := AggregateWeight(top.cites, ws);
      if ws != [] && weight > 0.0 then AtMost(0.95, Reduced(vs[0].confidence, weight))
      else vs[0].confidence
  }

  /** What one iteration computes. */
  datatype Round = Round(
    items: seq<EvidenceItem>, hypotheses: seq<Hypothesis>, validations: seq<ValidationResult>,
    weighted: seq<Weighted>, convergence: ConvergenceStatus, iteration: int)

  function AnalysisPack(items: seq<EvidenceItem>, before: seq<Weighted>, t: Thresholds, iteration: int)
    : seq<EvidenceItem>
  {
    if iteration > 1 && before != [] then Focus(items, before, t, iteration) else items
  }

  function OneRound(items: seq<EvidenceItem>, before: seq<Weighted>, iteration: int, maxIters: int,
                    t: Thresholds, o: Texts): Round {
    var hs := Generated(AnalysisPack(items, before, t, iteration), o);
    var vs := Ranked(hs, items, o);
    Round(items, hs, vs, Weights(items, Combined, DefaultTypeWeight),
          Check(t, vs, |items|, iteration, maxIters), iteration)
  }

  /** The round the loop ends with. */
  function LastRound(items: seq<EvidenceItem>, before: seq<Weighted>, iteration: int, maxIters: int,
                     t: Thresholds, o: Texts, f: Fresh): Round
    requires iteration <= maxIters
    decreases maxIters - iteration
  {
    var r := OneRound(items, before, iteration, maxIters, t, o);
    if r.convergence.isConverged then r
    else LastRound(Synthesize(items, r.weighted, f, iteration), r.weighted, iteration + 1, maxIters, t, o, f)
  }

  datatype AnalysisResult = AnalysisResult(
    hypotheses: seq<Hypothesis>, confidence: real, isConverged: bool, iterations: int, items: seq<EvidenceItem>)

  function MaxIters(maxIterations: int): int {
    if maxIterations < 1 then 1 else maxIterations
  }

  function Analysis(items: seq<EvidenceItem>, maxIterations: int, t: Thresholds, o: Texts, f: Fresh): AnalysisResult {
    if items == [] then AnalysisResult([Hypothesis(NoEvidence, [])], 0.0, false, 1, [])
    else
      var r := LastRound(items, [], 1, MaxIters(maxIterations), t, o, f);
      AnalysisResult(r.hypotheses, ConclusionConfidence(r.hypotheses, r.validations, r.weighted),
                     r.convergence.isConverged, r.iteration, r.items)
  }

  // ----- the code -----

  /** The body of one iteration, up to the convergence check. */
  method RunRound(pack: seq<EvidenceItem>, before: seq<Weighted>, iteration: int, maxIters: int,
                  t: Thresholds, o: Texts) returns (r: Round)
    ensures r == OneRound(pack, before, iteration, maxIters, t, o)
  {
    var analysisPack := pack;
    if iteration > 1 && |before| > 0 {
      analysisPack := Focus(pack, before, t, iteration);
    }
    var hs := Generate(analysisPack, o);
    var vs := ValidateAll(hs, pack, o);
    var weighted := Weigh(pack, Combined, DefaultTypeWeight);
    r := Round(pack, hs, vs, weighted, Check(t, vs, |pack|, iteration, maxIters), iteration);
  }

  method Analyze(items: seq<EvidenceItem>, maxIterations: int, t: Thresholds, o: Texts, f: Fresh)
    returns (result: AnalysisResult)
    ensures result == Analysis(items, maxIterations, t, o, f)
  {
    if |items| == 0 {
      return AnalysisResult([Hypothesis(NoEvidence, [])], 0.0, false, 1, []);
    }
    var maxIters := MaxIters(maxIterations);
    var r := LoopRounds(items, maxIters, t, o, f);
    result := AnalysisResult(r.hypotheses, ConclusionConfidence(r.hypotheses, r.validations, r.weighted),
                             r.convergence.isConverged, r.iteration, r.items);
  }

  method LoopRounds(items: seq<EvidenceItem>, maxIters: int, t: Thresholds, o: Texts, f: Fresh) returns (r: Round)
    requires 1 <= maxIters
    ensures r == LastRound(items, [], 1, maxIters, t, o, f)
  {
    var pack, weighted, iteration := items, [], 1;
    while true
      invariant 1 <= iteration <= maxIters
      invariant LastRound(items, [], 1, maxIters, t, o, f) == LastRound(pack, weighted, iteration, maxIters, t, o, f)
      decreases maxIters - iteration
    {
      r := RunRound(pack, weighted, iteration, maxIters, t, o);
      if r.convergence.isConverged {
        return;
      }
      weighted := r.weighted;
      pack := Synthesize(pack, weighted, f, iteration);
      iteration := iteration + 1;
    }
  }
}
