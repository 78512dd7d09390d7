/** Evidence items, hypotheses, and what the keyword tests say about their text. */
module Evidence {
  import opened Common

  datatype EvidenceType = Log | Trace | Code | Metric | Topology | ServiceCatalog | Other

  /** `derivedIn` is the iteration that produced the item, for items the engine
      itself adds between iterations. */
  datatype EvidenceItem = EvidenceItem(id: string, kind: EvidenceType, collectedAt: int, derivedIn: Option<int>)

  datatype HypothesisType =
    | LogError | TraceAnomaly | CodeDefect | ResourceExhaustion | ConfigError | DependencyFailure

  /** Which rule made the hypothesis.  A rule makes at most one in each
      generation, so the origin also identifies it there. */
  datatype Origin = FromTemplate(template: HypothesisType) | FromType(kind: EvidenceType) | CatchAll | NoEvidence

  datatype Hypothesis = Hypothesis(origin: Origin, cites: seq<string>)

  /** The tests on text: which templates have a keyword in an item's content,
      which items say they come from an unconfigured tool, which items share a
      keyword with a statement, and which contradict it. */
  datatype Texts = Texts(
    matches: (HypothesisType, EvidenceItem) -> bool,
    unconfigured: EvidenceItem -> bool,
    supports: (Hypothesis, EvidenceItem) -> bool,
    contradicts: (Hypothesis, EvidenceItem) -> bool)

  function Ids(items: seq<EvidenceItem>): seq<string> {
    seq(|items|, i requires 0 <= i < |items| => items[i].id)
  }

  predicate NoRepeat(ids: seq<string>) {
    forall i, j :: 0 <= i < j < |ids| ==> ids[i] != ids[j]
  }

  ghost predicate DistinctItems(items: seq<EvidenceItem>) {
    forall i, j :: 0 <= i < j < |items| ==> items[i].id != items[j].id
  }

  lemma IdsMembers(items: seq<EvidenceItem>, x: string)
    ensures x in Ids(items) <==> exists e :: e in items && e.id == x
  {
    if x in Ids(items) {
      var i :| 0 <= i < |items| && Ids(items)[i] == x;
      assert items[i] in items;
    }
    if e :| e in items && e.id == x {
      var i :| 0 <= i < |items| && items[i] == e;
      assert Ids(items)[i] == x;
    }
  }

  lemma SameIdSameItem(items: seq<EvidenceItem>, d: EvidenceItem, e: EvidenceItem)
    requires DistinctItems(items) && d in items && e in items && d.id == e.id
    ensures d == e
  {
    var i :| 0 <= i < |items| && items[i] == d;
    var j :| 0 <= j < |items| && items[j] == e;
  }
}
