/** Hypotheses from an evidence pack: one for each keyword template that finds new
    evidence, one for each evidence type with several items left over, and a
    catch-all when there is nothing else. */
module HypothesisGenerator {
  import opened Evidence
  import opened Sorting

  const TEMPLATES: seq<HypothesisType> :=
    [LogError, TraceAnomaly, CodeDefect, ResourceExhaustion, ConfigError, DependencyFailure]

  // ----- specification -----

  /** The items that pass a test, in order. */
  function Keep(items: seq<EvidenceItem>, test: EvidenceItem -> bool): seq<EvidenceItem> {
    if items == [] then []
    else
      var q, e := Keep(items[..|items| - 1], test), items[|items| - 1];
      if test(e) then q + [e] else q
  }

  function Matching(t: HypothesisType, o: Texts): EvidenceItem -> bool {
    (e: EvidenceItem) => !o.unconfigured(e) && o.matches(t, e)
  }

  function Unused(used: set<string>): EvidenceItem -> bool {
    (e: EvidenceItem) => e.id !in used
  }

  /** Configured and not cited by a template hypothesis. */
  function LeftOver(used: set<string>, o: Texts): EvidenceItem -> bool {
    (e: EvidenceItem) => e.id !in used && !o.unconfigured(e)
  }

  function OfKind(k: EvidenceType): EvidenceItem -> bool {
    (e: EvidenceItem) => e.kind == k
  }

  function First(items: seq<EvidenceItem>, n: nat): seq<string> {
    Ids(if |items| <= n then items else items[..n])
  }

  function Cited(hs: seq<Hypothesis>): set<string> {
    set h, x | h in hs && x in h.cites :: x
  }

  /** The hypotheses of the first n templates. */
  function TemplateHypotheses(items: seq<EvidenceItem>, o: Texts, n: nat): seq<Hypothesis>
    requires n <= |TEMPLATES|
  {
    if n == 0 then []
    else
      var q := TemplateHypotheses(items, o, n - 1);
      var found := Keep(Keep(items, Matching(TEMPLATES[n - 1], o)), Unused(Cited(q)));
      if found == [] then q else q + [Hypothesis(FromTemplate(TEMPLATES[n - 1]), First(found, 5))]
  }

  /** The types, each where it first occurs. */
  function Kinds(items: seq<EvidenceItem>): seq<EvidenceType> {
    if items == [] then []
    else
      var q, k := Kinds(items[..|items| - 1]), items[|items| - 1].kind;
      if k in q then q else q + [k]
  }

  function TypeHypotheses(kinds: seq<EvidenceType>, left: seq<EvidenceItem>): seq<Hypothesis> {
    if kinds == [] then []
    else
      var q, k := TypeHypotheses(kinds[..|kinds| - 1], left), kinds[|kinds| - 1];
      if |Keep(left, OfKind(k))| >= 2 then q + [Hypothesis(FromType(k), First(Keep(left, OfKind(k)), 5))] else q
  }

  /** What the templates and the types give. */
  function FromRules(items: seq<EvidenceItem>, o: Texts): seq<Hypothesis> {
    var fromTemplates := TemplateHypotheses(items, o, |TEMPLATES|);
    var left := Keep(items, LeftOver(Cited(fromTemplates), o));
    fromTemplates + TypeHypotheses(Kinds(left), left)
  }

  /** Before sorting and cutting. */
  function Drafted(items: seq<EvidenceItem>, o: Texts): seq<Hypothesis> {
    var all := FromRules(items, o);
    if all == [] then [Hypothesis(CatchAll, First(items, 3))] else all
  }

  predicate MoreCited(g: Hypothesis, h: Hypothesis) {
    |g.cites| >= |h.cites|
  }

  function Generated(items: seq<EvidenceItem>, o: Texts): seq<Hypothesis> {
    if items == [] then [Hypothesis(NoEvidence, [])]
    else
      var ranked := Sort(Drafted(items, o), MoreCited);
      if |ranked| <= 5 then ranked else ranked[..5]
  }

  // ----- the code -----

  method FindMatchingItems(items: seq<EvidenceItem>, t: HypothesisType, o: Texts) returns (matching: seq<EvidenceItem>)
    ensures matching == Keep(items, Matching(t, o))
  {
    matching := [];
    for i := 0 to |items|
      invariant matching == Keep(items[..i], Matching(t, o))
    {
      assert items[..i + 1][..i] == items[..i];
      if !o.unconfigured(items[i]) && o.matches(t, items[i]) {
        matching := matching + [items[i]];
      }
    }
    assert items[..|items|] == items;
  }

  /** Groups the leftover items by type in a dictionary, in insertion order. */
  lemma OneMoreLeft(left: seq<EvidenceItem>, e: EvidenceItem)
    ensures Kinds(left + [e]) == if e.kind in Kinds(left) then Kinds(left) else Kinds(left) + [e.kind]
    ensures forall k :: Keep(left + [e], OfKind(k)) == Keep(left, OfKind(k)) + (if k == e.kind then [e] else [])
  {
    assert (left + [e])[..|left|] == left;
  }

  method GroupByType(items: seq<EvidenceItem>, used: set<string>, o: Texts)
    returns (order: seq<EvidenceType>, groups: map<EvidenceType, seq<EvidenceItem>>)
    ensures var left := Keep(items, LeftOver(used, o));
      order == Kinds(left) && forall k :: k in order ==> k in groups && groups[k] == Keep(left, OfKind(k))
  {
    order, groups := [], map[];
    ghost var left := [];
    for i := 0 to |items|
      invariant left == Keep(items[..i], LeftOver(used, o))
      invariant order == Kinds(left) && forall k :: k in groups <==> k in order
      invariant forall k :: k in order ==> groups[k] == Keep(left, OfKind(k))
      invariant forall k :: k !in order ==> Keep(left, OfKind(k)) == []
    {
      assert items[..i + 1][..i] == items[..i];
      var e := items[i];
      if !(e.id in used || o.unconfigured(e)) {
        OneMoreLeft(left, e);
        left := left + [e];
        groups := groups[e.kind := (if e.kind in groups then groups[e.kind] else []) + [e]];
        if e.kind !in order {
          order := order + [e.kind];
        }
      }
    }
    assert items[..|items|] == items;
  }

  lemma TypeStep(kinds: seq<EvidenceType>, left: seq<EvidenceItem>, i: nat)
    requires i < |kinds|
    ensures var group := Keep(left, OfKind(kinds[i]));
      TypeHypotheses(kinds[..i + 1], left) ==
        if |group| >= 2 then TypeHypotheses(kinds[..i], left) + [Hypothesis(FromType(kinds[i]), First(group, 5))]
        else TypeHypotheses(kinds[..i], left)
  {
    assert kinds[..i + 1][..i] == kinds[..i];
  }

  method GenerateTypeHypotheses(items: seq<EvidenceItem>, used: set<string>, o: Texts) returns (hs: seq<Hypothesis>)
    ensures var left := Keep(items, LeftOver(used, o)); hs == TypeHypotheses(Kinds(left), left)
  {
    ghost var left := Keep(items, LeftOver(used, o));
    var order, groups := GroupByType(items, used, o);
    hs := [];
    for i := 0 to |order|
      invariant hs == TypeHypotheses(order[..i], left)
    {
      TypeStep(order, left, i);
      assert order[i] in order;
      var group := groups[order[i]];
      if |group| >= 2 {
        hs := hs + [Hypothesis(FromType(order[i]), First(group, 5))];
      }
    }
    assert order[..|order|] == order;
  }

  lemma CitedGrows(hs: seq<Hypothesis>, h: Hypothesis)
    ensures Cited(hs + [h]) == Cited(hs) + (set x | x in h.cites)
  {
    assert forall g :: g in hs + [h] <==> g in hs || g == h;
  }

  method GenerateFromTemplates(items: seq<EvidenceItem>, o: Texts) returns (hs: seq<Hypothesis>, used: set<string>)
    ensures hs == TemplateHypotheses(items, o, |TEMPLATES|) && used == Cited(hs)
  {
    hs, used := [], {};
    for n := 0 to |TEMPLATES|
      invariant hs == TemplateHypotheses(items, o, n) && used == Cited(hs)
    {
      var matching := FindMatchingItems(items, TEMPLATES[n], o);
      var found := Keep(matching, Unused(used));
      if found != [] {
        var h := Hypothesis(FromTemplate(TEMPLATES[n]), First(found, 5));
        CitedGrows(hs, h);
        hs := hs + [h];
        used := used + set x | x in h.cites;
      }
    }
  }

  method Generate(items: seq<EvidenceItem>, o: Texts) returns (hs: seq<Hypothesis>)
    ensures hs == Generated(items, o)
  {
    if |items| == 0 {
      return [Hypothesis(NoEvidence, [])];
    }
    var used, typed;
    hs, used := GenerateFromTemplates(items, o);
    typed := GenerateTypeHypotheses(items, used, o);
    hs := hs + typed;
    if |hs| == 0 {
      hs := [Hypothesis(CatchAll, First(items, 3))];
    }
    hs := Sort(hs, MoreCited);
    hs := if |hs| <= 5 then hs else hs[..5];
  }
}
