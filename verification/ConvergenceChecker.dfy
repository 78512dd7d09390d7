/** When an analysis has converged. */
module ConvergenceChecker {
  import opened Sorting
  import opened HypothesisValidator

  datatype Thresholds = Thresholds(confidence: real, minEvidence: int, minGap: real)

  const DEFAULTS: Thresholds := Thresholds(0.7, 3, 0.2)

  datatype ConvergenceStatus = ConvergenceStatus(
    isConverged: bool, confidenceMet: bool, sufficientEvidence: bool, gap: real, iterationsRemaining: int)

  function Gap(vs: seq<ValidationResult>): real {
    if |vs| < 2 then (if vs == [] then 0.0 else 1.0)
    else
      var sorted := Sort(vs, MoreConfident);
      sorted[0].confidence - sorted[1].confidence
  }

  function Check(t: Thresholds, vs: seq<ValidationResult>, evidence: nat, iteration: int, maxIterations: int)
    : ConvergenceStatus
  {
    var met := vs != [] && vs[0].confidence >= t.confidence;
    var sufficient := evidence >= t.minEvidence;
    var remaining := if maxIterations - iteration > 0 then maxIterations - iteration else 0;
    ConvergenceStatus((met && sufficient && Gap(vs) >= t.minGap) || iteration >= maxIterations,
                      met, sufficient, Gap(vs), remaining)
  }

  /** On a ranked list the gap is that of its first two entries. */
  lemma GapOfRanked(vs: seq<ValidationResult>)
    requires SortedBy(vs, MoreConfident) && |vs| >= 2
    ensures Gap(vs) == vs[0].confidence - vs[1].confidence >= 0.0
  {
    SortKeepsSorted(vs, MoreConfident);
  }
}
