/** Support, contradiction and confidence of a hypothesis against a pack. */
module HypothesisValidator {
  import opened Common
  import opened Evidence
  import opened Sorting
  import opened EvidenceWeighting

  datatype ValidationResult = ValidationResult(
    origin: Origin, isValid: bool, confidence: real, supporting: nat, contradicting: nat)

  const MIN_SUPPORT: int := 1
  const CONTRADICTION_PENALTY: real := 0.3

  /** Ids of the cited items and of the items that share a keyword. */
  function Supporters(h: Hypothesis, items: seq<EvidenceItem>, o: Texts): set<string> {
    (set x | x in h.cites) + (set e | e in items && o.supports(h, e) :: e.id)
  }

  predicate Contradicts(h: Hypothesis, e: EvidenceItem, o: Texts) {
    e.id !in h.cites && o.contradicts(h, e)
  }

  function Contradictions(h: Hypothesis, items: seq<EvidenceItem>, o: Texts): nat {
    if items == [] then 0
    else
      Contradictions(h, items[..|items| - 1], o) + (if Contradicts(h, items[|items| - 1], o) then 1 else 0)
  }

  function Confidence(supporting: nat, contradicting: nat): real {
    if supporting == 0 then 0.0
    else
      var base := AtMost(0.9, 0.3 + 0.15 * (supporting as real));
      AtLeast(0.0, AtMost(1.0, base - (contradicting as real) * CONTRADICTION_PENALTY))
  }

  function Validation(h: Hypothesis, items: seq<EvidenceItem>, o: Texts): ValidationResult {
    var s, c := |Supporters(h, items, o)|, Contradictions(h, items, o);
    ValidationResult(h.origin, s >= MIN_SUPPORT && Confidence(s, c) > 0.1, Confidence(s, c), s, c)
  }

  function Validations(hs: seq<Hypothesis>, items: seq<EvidenceItem>, o: Texts): seq<ValidationResult> {
    seq(|hs|, i requires 0 <= i < |hs| => Validation(hs[i], items, o))
  }

  predicate MoreConfident(a: ValidationResult, b: ValidationResult) {
    a.confidence >= b.confidence
  }

  function Ranked(hs: seq<Hypothesis>, items: seq<EvidenceItem>, o: Texts): seq<ValidationResult> {
    Sort(Validations(hs, items, o), MoreConfident)
  }

  // ----- the code -----

  method CountSupporting(h: Hypothesis, items: seq<EvidenceItem>, o: Texts) returns (n: nat)
    ensures n == |Supporters(h, items, o)|
  {
    var ids := set x | x in h.cites;
    for i := 0 to |items|
      invariant ids == Supporters(h, items[..i], o)
    {
      assert items[..i + 1] == items[..i] + [items[i]];
      if items[i].id !in ids && o.supports(h, items[i]) {
        ids := ids + {items[i].id};
      }
    }
    assert items[..|items|] == items;
    n := |ids|;
  }

  method CountContradicting(h: Hypothesis, items: seq<EvidenceItem>, o: Texts) returns (n: nat)
    ensures n == Contradictions(h, items, o)
  {
    n := 0;
    for i := 0 to |items|
      invariant n == Contradictions(h, items[..i], o)
    {
      assert items[..i + 1][..i] == items[..i];
      if items[i].id !in h.cites && o.contradicts(h, items[i]) {
        n := n + 1;
      }
    }
    assert items[..|items|] == items;
  }

  method Validate(h: Hypothesis, items: seq<EvidenceItem>, o: Texts) returns (r: ValidationResult)
    ensures r == Validation(h, items, o)
  {
    var s := CountSupporting(h, items, o);
    var c := CountContradicting(h, items, o);
    var confidence := Confidence(s, c);
    r := ValidationResult(h.origin, s >= MIN_SUPPORT && confidence > 0.1, confidence, s, c);
  }

  method ValidateAll(hs: seq<Hypothesis>, items: seq<EvidenceItem>, o: Texts) returns (rs: seq<ValidationResult>)
    ensures rs == Ranked(hs, items, o)
  {
    rs := [];
    ghost var all := Validations(hs, items, o);
    for i := 0 to |hs|
      invariant rs == all[..i]
    {
      var r := Validate(hs[i], items, o);
      TakeOneMore(all, i);
      rs := rs + [r];
    }
    assert all[..|hs|] == all;
    rs := Sort(rs, MoreConfident);
  }

  // ----- what the numbers mean -----

  lemma ConfidenceBounds(s: nat, c: nat)
    ensures 0.0 <= Confidence(s, c) <= 0.9
    ensures Confidence(s, c) == 0.9 <==> s >= 4 && c == 0
  {
    Penalty(c);
  }

  lemma Penalty(c: nat)
    ensures (c as real) * CONTRADICTION_PENALTY >= 0.0
    ensures c > 0 ==> (c as real) * CONTRADICTION_PENALTY >= 0.3
  {
  }

  /** The threshold of 0.7 is met exactly by at least three supporting items and
      no contradicting one. */
  lemma ThresholdMeansThreeSupporters(s: nat, c: nat)
    ensures Confidence(s, c) >= 0.7 <==> s >= 3 && c == 0
  {
    Penalty(c);
  }

  /** More support never lowers confidence, more contradiction never raises it. */
  lemma ConfidenceIsMonotone(s: nat, t: nat, c: nat, d: nat)
    requires s <= t && d <= c
    ensures Confidence(s, c) <= Confidence(t, d)
  {
    assert (d as real) * CONTRADICTION_PENALTY <= (c as real) * CONTRADICTION_PENALTY;
  }

  lemma MoreConfidentIsPreorder()
    ensures TotalPreorder(MoreConfident)
  {
  }

  lemma RankedIsSorted(hs: seq<Hypothesis>, items: seq<EvidenceItem>, o: Texts)
    ensures SortedBy(Ranked(hs, items, o), MoreConfident)
  {
    MoreConfidentIsPreorder();
    SortSorts(Validations(hs, items, o), MoreConfident);
  }

  /** Every validation is that of a hypothesis. */
  lemma RankedMember(hs: seq<Hypothesis>, items: seq<EvidenceItem>, o: Texts, k: nat) returns (h: Hypothesis)
    requires k < |hs|
    ensures h in hs && |Ranked(hs, items, o)| == |hs| && Ranked(hs, items, o)[k] == Validation(h, items, o)
  {
    var vs := Validations(hs, items, o);
    SortMembers(vs, MoreConfident);
    assert Ranked(hs, items, o)[k] in vs;
    var i :| 0 <= i < |hs| && vs[i] == Ranked(hs, items, o)[k];
    h := hs[i];
  }

  /** The first validation is one of a hypothesis, and its confidence is between 0
      and 0.9. */
  lemma TopValidation(hs: seq<Hypothesis>, items: seq<EvidenceItem>, o: Texts) returns (h: Hypothesis)
    requires hs != []
    ensures h in hs && |Ranked(hs, items, o)| == |hs| && Ranked(hs, items, o)[0] == Validation(h, items, o)
    ensures 0.0 <= Ranked(hs, items, o)[0].confidence <= 0.9
  {
    h := RankedMember(hs, items, o, 0);
    ConfidenceBounds(|Supporters(h, items, o)|, Contradictions(h, items, o));
  }
}
