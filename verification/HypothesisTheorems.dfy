/** How the generated hypotheses divide the evidence among them. */
module HypothesisTheorems {
  import opened Evidence
  import opened HypothesisGenerator
  import opened Sorting

  lemma {:induction false} KeepMembers(items: seq<EvidenceItem>, test: EvidenceItem -> bool, e: EvidenceItem)
    ensures e in Keep(items, test) <==> e in items && test(e)
  {
    if items != [] {
      var n := |items| - 1;
      KeepMembers(items[..n], test, e);
      assert items == items[..n] + [items[n]];
    }
  }

  lemma {:induction false} KeepDistinct(items: seq<EvidenceItem>, test: EvidenceItem -> bool)
    requires DistinctItems(items)
    ensures DistinctItems(Keep(items, test))
  {
    if items != [] {
      var n := |items| - 1;
      var q, e := Keep(items[..n], test), items[n];
      PrefixDistinct(items, n);
      KeepDistinct(items[..n], test);
      forall i | 0 <= i < |q|
        ensures q[i].id != e.id
      {
        KeepMembers(items[..n], test, q[i]);
        var j :| 0 <= j < n && items[..n][j] == q[i];
        assert items[j].id != items[n].id;
      }
    }
  }

  lemma PrefixDistinct(items: seq<EvidenceItem>, n: nat)
    requires DistinctItems(items) && n <= |items|
    ensures DistinctItems(items[..n])
  {
  }

  /** The first ids of a kept list: no repeats, and each the id of a kept item. */
  lemma FirstIs(items: seq<EvidenceItem>, n: nat)
    requires DistinctItems(items)
    ensures NoRepeat(First(items, n)) && |First(items, n)| == if |items| <= n then |items| else n
    ensures forall x :: x in First(items, n) ==> exists e :: e in items && e.id == x
  {
    if |items| > n {
      PrefixDistinct(items, n);
    }
    forall x | x in First(items, n)
      ensures exists e :: e in items && e.id == x
    {
      IdsMembers(if |items| <= n then items else items[..n], x);
    }
  }

  // ----- one hypothesis -----

  ghost predicate IdOfConfigured(items: seq<EvidenceItem>, o: Texts, x: string) {
    exists e :: e in items && e.id == x && !o.unconfigured(e)
  }

  /** Cites one to five configured items of the pack, none twice. */
  ghost predicate WellCited(h: Hypothesis, items: seq<EvidenceItem>, o: Texts) {
    1 <= |h.cites| <= 5 && NoRepeat(h.cites) && forall x :: x in h.cites ==> IdOfConfigured(items, o, x)
  }

  lemma FoundIsWellCited(items: seq<EvidenceItem>, o: Texts, t: HypothesisType, used: set<string>)
    requires DistinctItems(items) && Keep(Keep(items, Matching(t, o)), Unused(used)) != []
    ensures var h := Hypothesis(FromTemplate(t), First(Keep(Keep(items, Matching(t, o)), Unused(used)), 5));
      WellCited(h, items, o) && forall x :: x in h.cites ==> x !in used
  {
    var matching := Keep(items, Matching(t, o));
    var found := Keep(matching, Unused(used));
    KeepDistinct(items, Matching(t, o));
    KeepDistinct(matching, Unused(used));
    FirstIs(found, 5);
    forall x | x in First(found, 5)
      ensures IdOfConfigured(items, o, x) && x !in used
    {
      var e :| e in found && e.id == x;
      KeepMembers(matching, Unused(used), e);
      KeepMembers(items, Matching(t, o), e);
    }
  }

  lemma GroupIsWellCited(items: seq<EvidenceItem>, o: Texts, used: set<string>, k: EvidenceType)
    requires DistinctItems(items)
    ensures var left := Keep(items, LeftOver(used, o));
      var h := Hypothesis(FromType(k), First(Keep(left, OfKind(k)), 5));
      && (|Keep(left, OfKind(k))| >= 2 ==> WellCited(h, items, o))
      && (forall x :: x in h.cites ==> x !in used && exists e :: e in left && e.id == x && e.kind == k)
  {
    var left := Keep(items, LeftOver(used, o));
    var group := Keep(left, OfKind(k));
    KeepDistinct(items, LeftOver(used, o));
    KeepDistinct(left, OfKind(k));
    FirstIs(group, 5);
    forall x | x in First(group, 5)
      ensures IdOfConfigured(items, o, x) && x !in used && exists e :: e in left && e.id == x && e.kind == k
    {
      var e :| e in group && e.id == x;
      KeepMembers(left, OfKind(k), e);
      KeepMembers(items, LeftOver(used, o), e);
    }
  }

  // ----- all of them -----

  /** No two made by the same rule, and no item cited by two. */
  ghost predicate Apart(hs: seq<Hypothesis>) {
    forall i, j :: 0 <= i < j < |hs| ==> hs[i].origin != hs[j].origin && Disjoint(hs[i], hs[j])
  }

  ghost predicate Disjoint(g: Hypothesis, h: Hypothesis) {
    forall x :: x in g.cites ==> x !in h.cites
  }

  lemma AppendApart(hs: seq<Hypothesis>, h: Hypothesis)
    requires Apart(hs) && forall g :: g in hs ==> g.origin != h.origin && Disjoint(g, h)
    ensures Apart(hs + [h])
  {
  }

  /** The place of a template in the list. */
  function Rank(t: HypothesisType): nat {
    match t
    case LogError => 0
    case TraceAnomaly => 1
    case CodeDefect => 2
    case ResourceExhaustion => 3
    case ConfigError => 4
    case DependencyFailure => 5
  }

  lemma RankIs(n: nat)
    requires n < |TEMPLATES|
    ensures Rank(TEMPLATES[n]) == n
  {
  }

  lemma {:induction false} TemplatesApart(items: seq<EvidenceItem>, o: Texts, n: nat)
    requires DistinctItems(items) && n <= |TEMPLATES|
    ensures var hs := TemplateHypotheses(items, o, n);
      && Apart(hs)
      && (forall h :: h in hs ==> WellCited(h, items, o) && h.origin.FromTemplate?)
      && (forall h :: h in hs ==> Rank(h.origin.template) < n)
  {
    if n > 0 {
      TemplatesApart(items, o, n - 1);
      RankIs(n - 1);
      TemplateStepApart(items, o, TemplateHypotheses(items, o, n - 1), TEMPLATES[n - 1]);
    }
  }

  /** One more template, of a higher rank, makes a hypothesis apart from those before. */
  lemma TemplateStepApart(items: seq<EvidenceItem>, o: Texts, q: seq<Hypothesis>, t: HypothesisType)
    requires DistinctItems(items) && Apart(q)
    requires forall h :: h in q ==> h.origin.FromTemplate? && Rank(h.origin.template) < Rank(t)
    ensures var found := Keep(Keep(items, Matching(t, o)), Unused(Cited(q)));
      var h := Hypothesis(FromTemplate(t), First(found, 5));
      found != [] ==> WellCited(h, items, o) && Apart(q + [h])
  {
    if Keep(Keep(items, Matching(t, o)), Unused(Cited(q))) != [] {
      FoundIsWellCited(items, o, t, Cited(q));
      AppendApart(q, Hypothesis(FromTemplate(t), First(Keep(Keep(items, Matching(t, o)), Unused(Cited(q))), 5)));
    }
  }

  lemma {:induction false} KindsDistinct(items: seq<EvidenceItem>)
    ensures forall i, j :: 0 <= i < j < |Kinds(items)| ==> Kinds(items)[i] != Kinds(items)[j]
    ensures forall e :: e in items ==> e.kind in Kinds(items)
  {
    if items != [] {
      var n := |items| - 1;
      KindsDistinct(items[..n]);
      assert items == items[..n] + [items[n]];
    }
  }

  /** Groups of different types share no item. */
  lemma GroupsDisjoint(items: seq<EvidenceItem>, o: Texts, used: set<string>, k: EvidenceType, m: EvidenceType)
    requires DistinctItems(items) && k != m
    ensures var left := Keep(items, LeftOver(used, o));
      Disjoint(Hypothesis(FromType(k), First(Keep(left, OfKind(k)), 5)),
               Hypothesis(FromType(m), First(Keep(left, OfKind(m)), 5)))
  {
    var left := Keep(items, LeftOver(used, o));
    GroupIsWellCited(items, o, used, k);
    GroupIsWellCited(items, o, used, m);
    KeepDistinct(items, LeftOver(used, o));
    forall x | x in First(Keep(left, OfKind(k)), 5)
      ensures x !in First(Keep(left, OfKind(m)), 5)
    {
      var d :| d in left && d.id == x && d.kind == k;
      forall e | e in left && e.id == x
        ensures e.kind != m
      {
        SameIdSameItem(left, d, e);
      }
    }
  }

  lemma {:induction false} TypesApart(items: seq<EvidenceItem>, o: Texts, used: set<string>, kinds: seq<EvidenceType>)
    requires DistinctItems(items) && forall i, j :: 0 <= i < j < |kinds| ==> kinds[i] != kinds[j]
    ensures var left := Keep(items, LeftOver(used, o)); var hs := TypeHypotheses(kinds, left);
      && Apart(hs)
      && (forall h :: h in hs ==> WellCited(h, items, o) && h.origin.FromType? && h.origin.kind in kinds)
      && (forall h :: h in hs ==> h == Hypothesis(h.origin, First(Keep(left, OfKind(h.origin.kind)), 5)))
  {
    if kinds != [] {
      var n := |kinds| - 1;
      var left, k := Keep(items, LeftOver(used, o)), kinds[n];
      TypesApart(items, o, used, kinds[..n]);
      var q := TypeHypotheses(kinds[..n], left);
      var h := Hypothesis(FromType(k), First(Keep(left, OfKind(k)), 5));
      GroupIsWellCited(items, o, used, k);
      forall g | g in q
        ensures g.origin != h.origin && Disjoint(g, h)
      {
        GroupsDisjoint(items, o, used, g.origin.kind, k);
      }
      AppendApart(q, h);
    }
  }

  lemma JoinApart(a: seq<Hypothesis>, b: seq<Hypothesis>)
    requires Apart(a) && Apart(b)
    requires forall g, h :: g in a && h in b ==> g.origin != h.origin && Disjoint(g, h)
    ensures Apart(a + b)
  {
    var all := a + b;
    forall i, j | 0 <= i < j < |all|
      ensures all[i].origin != all[j].origin && Disjoint(all[i], all[j])
    {
      if i < |a| <= j {
        assert all[i] in a && all[j] in b;
      }
    }
  }

  lemma UsedIsCited(hs: seq<Hypothesis>, h: Hypothesis, x: string)
    requires h in hs && x in h.cites
    ensures x in Cited(hs)
  {
  }

  lemma RulesApart(items: seq<EvidenceItem>, o: Texts)
    requires DistinctItems(items)
    ensures Apart(FromRules(items, o))
    ensures forall h :: h in FromRules(items, o) ==> WellCited(h, items, o) && !h.origin.CatchAll?
  {
    var hs := TemplateHypotheses(items, o, |TEMPLATES|);
    var left := Keep(items, LeftOver(Cited(hs), o));
    var typed := TypeHypotheses(Kinds(left), left);
    TemplatesApart(items, o, |TEMPLATES|);
    KindsDistinct(left);
    TypesApart(items, o, Cited(hs), Kinds(left));
    forall g, h | g in hs && h in typed
      ensures g.origin != h.origin && Disjoint(g, h)
    {
      GroupIsWellCited(items, o, Cited(hs), h.origin.kind);
      forall x | x in g.cites
        ensures x !in h.cites
      {
        UsedIsCited(hs, g, x);
      }
    }
    JoinApart(hs, typed);
  }

  lemma {:induction false} InsertApart(h: Hypothesis, hs: seq<Hypothesis>)
    requires Apart(hs) && forall g :: g in hs ==> g.origin != h.origin && Disjoint(g, h)
    ensures Apart(Insert(h, hs, MoreCited))
  {
    if hs == [] || MoreCited(h, hs[0]) {
      PrependApart(h, hs);
    } else {
      var rest := hs[1..];
      InsertApart(h, rest);
      var r := Insert(h, rest, MoreCited);
      forall g | g in r
        ensures g.origin != hs[0].origin && Disjoint(hs[0], g)
      {
        assert g in multiset(r);
        assert g == h || g in multiset(rest);
        if g != h {
          var i :| 0 <= i < |rest| && rest[i] == g;
          assert hs[i + 1] == g;
        }
      }
      PrependApart(hs[0], r);
    }
  }

  lemma PrependApart(h: Hypothesis, hs: seq<Hypothesis>)
    requires Apart(hs) && forall g :: g in hs ==> g.origin != h.origin && (Disjoint(h, g) || Disjoint(g, h))
    ensures Apart([h] + hs)
  {
    forall g | g in hs
      ensures Disjoint(h, g)
    {
    }
    JoinApart([h], hs);
  }

  lemma {:induction false} SortApart(hs: seq<Hypothesis>)
    requires Apart(hs)
    ensures Apart(Sort(hs, MoreCited))
  {
    if hs != [] {
      SortApart(hs[1..]);
      SortMembers(hs[1..], MoreCited);
      forall g | g in hs[1..]
        ensures g.origin != hs[0].origin && Disjoint(g, hs[0])
      {
        var i :| 0 <= i < |hs| - 1 && hs[1..][i] == g;
        assert hs[i + 1] == g && Disjoint(hs[0], g);
      }
      InsertApart(hs[0], Sort(hs[1..], MoreCited));
    }
  }

  /** The catch-all cites the first three items, whatever they are. */
  ghost predicate CitesFromPack(h: Hypothesis, items: seq<EvidenceItem>) {
    && |h.cites| <= 5 && NoRepeat(h.cites)
    && forall x :: x in h.cites ==> exists e :: e in items && e.id == x
  }

  lemma DraftedIs(items: seq<EvidenceItem>, o: Texts)
    requires DistinctItems(items) && items != []
    ensures Apart(Drafted(items, o)) && Drafted(items, o) != []
    ensures forall h :: h in Drafted(items, o) ==> h.cites != [] && CitesFromPack(h, items)
    ensures forall h :: h in Drafted(items, o) ==> h.origin.CatchAll? || WellCited(h, items, o)
  {
    RulesApart(items, o);
    FirstIs(items, 3);
    if FromRules(items, o) != [] {
      forall h | h in FromRules(items, o)
        ensures CitesFromPack(h, items)
      {
        WellCitedIsFromPack(h, items, o);
      }
    }
  }

  lemma WellCitedIsFromPack(h: Hypothesis, items: seq<EvidenceItem>, o: Texts)
    requires WellCited(h, items, o)
    ensures CitesFromPack(h, items)
  {
    forall x | x in h.cites
      ensures exists e :: e in items && e.id == x
    {
      assert IdOfConfigured(items, o, x);
    }
  }

  lemma MoreCitedIsPreorder()
    ensures TotalPreorder(MoreCited)
  {
  }

  /** What is generated: one to five hypotheses, the most cited first, each citing
      at most five items of the pack and none twice, and no item cited by two. */
  lemma EvidenceIsDivided(items: seq<EvidenceItem>, o: Texts)
    requires DistinctItems(items)
    ensures 1 <= |Generated(items, o)| <= 5 && SortedBy(Generated(items, o), MoreCited)
    ensures Apart(Generated(items, o))
    ensures forall h :: h in Generated(items, o) ==> CitesFromPack(h, items) && (h.cites == [] <==> items == [])
  {
    if items != [] {
      var all := Drafted(items, o);
      DraftedIs(items, o);
      MoreCitedIsPreorder();
      SortSorts(all, MoreCited);
      SortApart(all);
      SortMembers(all, MoreCited);
    }
  }

  /** For a pack with evidence every hypothesis but the catch-all cites at least
      one item and only configured ones. */
  lemma OnlyCatchAllCitesUnconfigured(items: seq<EvidenceItem>, o: Texts, h: Hypothesis)
    requires DistinctItems(items) && items != [] && h in Generated(items, o)
    ensures h.origin.CatchAll? || WellCited(h, items, o)
  {
    DraftedIs(items, o);
    SortMembers(Drafted(items, o), MoreCited);
  }

  // ----- what a citation means -----

  /** The citations are what the rule that made the hypothesis looks for. */
  ghost predicate Explained(h: Hypothesis, items: seq<EvidenceItem>, o: Texts) {
    match h.origin
    case FromTemplate(t) => forall x :: x in h.cites ==> IdPassing(items, Matching(t, o), x)
    case FromType(k) => |h.cites| >= 2 && forall x :: x in h.cites ==> IdPassing(items, ConfiguredOfKind(k, o), x)
    case CatchAll => h.cites == First(items, 3)
    case NoEvidence => h.cites == [] && items == []
  }

  ghost predicate IdPassing(items: seq<EvidenceItem>, test: EvidenceItem -> bool, x: string) {
    exists e :: e in items && e.id == x && test(e)
  }

  lemma TemplateExplained(items: seq<EvidenceItem>, o: Texts, t: HypothesisType, used: set<string>)
    requires DistinctItems(items)
    ensures Explained(Hypothesis(FromTemplate(t), First(Keep(Keep(items, Matching(t, o)), Unused(used)), 5)), items, o)
  {
    var matching := Keep(items, Matching(t, o));
    var found := Keep(matching, Unused(used));
    KeepDistinct(items, Matching(t, o));
    KeepDistinct(matching, Unused(used));
    FirstIs(found, 5);
    forall x | x in First(found, 5)
      ensures IdPassing(items, Matching(t, o), x)
    {
      var e :| e in found && e.id == x;
      KeepMembers(matching, Unused(used), e);
      KeepMembers(items, Matching(t, o), e);
    }
  }

  lemma {:induction false} TemplatesExplained(items: seq<EvidenceItem>, o: Texts, n: nat, h: Hypothesis)
    requires DistinctItems(items) && n <= |TEMPLATES| && h in TemplateHypotheses(items, o, n)
    ensures Explained(h, items, o)
  {
    var q, t := TemplateHypotheses(items, o, n - 1), TEMPLATES[n - 1];
    if h in q {
      TemplatesExplained(items, o, n - 1, h);
    } else {
      TemplateExplained(items, o, t, Cited(q));
    }
  }

  lemma TypeExplained(items: seq<EvidenceItem>, o: Texts, used: set<string>, k: EvidenceType)
    requires DistinctItems(items) && |Keep(Keep(items, LeftOver(used, o)), OfKind(k))| >= 2
    ensures Explained(Hypothesis(FromType(k), First(Keep(Keep(items, LeftOver(used, o)), OfKind(k)), 5)), items, o)
  {
    var left := Keep(items, LeftOver(used, o));
    var group := Keep(left, OfKind(k));
    KeepDistinct(items, LeftOver(used, o));
    KeepDistinct(left, OfKind(k));
    FirstIs(group, 5);
    forall x | x in First(group, 5)
      ensures IdPassing(items, ConfiguredOfKind(k, o), x)
    {
      var e :| e in group && e.id == x;
      KeepMembers(left, OfKind(k), e);
      KeepMembers(items, LeftOver(used, o), e);
    }
  }

  lemma {:induction false} TypesExplained(items: seq<EvidenceItem>, o: Texts, used: set<string>,
                                          kinds: seq<EvidenceType>, h: Hypothesis)
    requires DistinctItems(items) && h in TypeHypotheses(kinds, Keep(items, LeftOver(used, o)))
    ensures Explained(h, items, o)
  {
    var n := |kinds| - 1;
    if h in TypeHypotheses(kinds[..n], Keep(items, LeftOver(used, o))) {
      TypesExplained(items, o, used, kinds[..n], h);
    } else {
      TypeExplained(items, o, used, kinds[n]);
    }
  }

  /** Every citation of a generated hypothesis is one its rule explains: an item
      with a keyword of the template, one of two or more configured items of the
      type, or one of the first three. */
  lemma CitationsAreExplained(items: seq<EvidenceItem>, o: Texts, h: Hypothesis)
    requires DistinctItems(items) && h in Generated(items, o)
    ensures Explained(h, items, o)
  {
    if items != [] {
      SortMembers(Drafted(items, o), MoreCited);
      var hs := TemplateHypotheses(items, o, |TEMPLATES|);
      if h in hs {
        TemplatesExplained(items, o, |TEMPLATES|, h);
      } else if h in FromRules(items, o) {
        TypesExplained(items, o, Cited(hs), Kinds(Keep(items, LeftOver(Cited(hs), o))), h);
      }
    }
  }

  // ----- when the catch-all appears -----

  lemma {:induction false} KeepNone(items: seq<EvidenceItem>, test: EvidenceItem -> bool)
    ensures Keep(items, test) == [] <==> forall e :: e in items ==> !test(e)
  {
    if items != [] {
      var n := |items| - 1;
      KeepNone(items[..n], test);
      assert items == items[..n] + [items[n]];
    }
  }

  lemma {:induction false} KeepAll(items: seq<EvidenceItem>, test: EvidenceItem -> bool)
    requires forall e :: e in items ==> test(e)
    ensures Keep(items, test) == items
  {
    if items != [] {
      KeepAll(items[..|items| - 1], test);
      assert items == items[..|items| - 1] + [items[|items| - 1]];
    }
  }

  lemma {:induction false} KeepTwice(items: seq<EvidenceItem>, a: EvidenceItem -> bool, b: EvidenceItem -> bool,
                                     both: EvidenceItem -> bool)
    requires forall e :: both(e) <==> a(e) && b(e)
    ensures Keep(Keep(items, a), b) == Keep(items, both)
  {
    if items != [] {
      var n := |items| - 1;
      KeepTwice(items[..n], a, b, both);
      var q := Keep(items[..n], a);
      if a(items[n]) {
        assert (q + [items[n]])[..|q|] == q;
      }
    }
  }

  function ConfiguredOfKind(k: EvidenceType, o: Texts): EvidenceItem -> bool {
    (e: EvidenceItem) => !o.unconfigured(e) && e.kind == k
  }

  /** No configured item matches the n-th template. */
  ghost predicate NoneMatches(items: seq<EvidenceItem>, o: Texts, n: int)
    requires 0 <= n < |TEMPLATES|
  {
    forall e :: e in items ==> !Matching(TEMPLATES[n], o)(e)
  }

  ghost predicate NoneMatchUpTo(items: seq<EvidenceItem>, o: Texts, n: nat)
    requires n <= |TEMPLATES|
  {
    forall m :: 0 <= m < n ==> NoneMatches(items, o, m)
  }

  lemma OneMoreTemplate(items: seq<EvidenceItem>, o: Texts, n: nat)
    requires 0 < n <= |TEMPLATES|
    ensures NoneMatchUpTo(items, o, n) <==> NoneMatchUpTo(items, o, n - 1) && NoneMatches(items, o, n - 1)
  {
  }

  /** No configured item matches a template. */
  ghost predicate NoMatch(items: seq<EvidenceItem>, o: Texts) {
    NoneMatchUpTo(items, o, |TEMPLATES|)
  }

  /** No type has two configured items. */
  ghost predicate NoPair(items: seq<EvidenceItem>, o: Texts) {
    forall k :: |Keep(items, ConfiguredOfKind(k, o))| < 2
  }

  ghost predicate NoneDrafted(items: seq<EvidenceItem>, o: Texts, n: nat)
    requires n <= |TEMPLATES|
  {
    TemplateHypotheses(items, o, n) == []
  }

  lemma {:induction false} NoTemplates(items: seq<EvidenceItem>, o: Texts, n: nat)
    requires n <= |TEMPLATES|
    ensures NoneDrafted(items, o, n) <==> NoneMatchUpTo(items, o, n)
  {
    if n > 0 {
      NoTemplates(items, o, n - 1);
      OneMoreTemplate(items, o, n);
      OneMoreDraft(items, o, n);
    }
  }

  lemma OneMoreDraft(items: seq<EvidenceItem>, o: Texts, n: nat)
    requires 0 < n <= |TEMPLATES|
    ensures NoneDrafted(items, o, n) <==> NoneDrafted(items, o, n - 1) && NoneMatches(items, o, n - 1)
  {
    if TemplateHypotheses(items, o, n - 1) == [] {
      KeepNone(items, Matching(TEMPLATES[n - 1], o));
      KeepAll(Keep(items, Matching(TEMPLATES[n - 1], o)), Unused(Cited([])));
    }
  }

  lemma {:induction false} NoTypes(kinds: seq<EvidenceType>, left: seq<EvidenceItem>)
    ensures TypeHypotheses(kinds, left) == [] <==> forall k :: k in kinds ==> |Keep(left, OfKind(k))| < 2
  {
    if kinds != [] {
      NoTypes(kinds[..|kinds| - 1], left);
      assert kinds == kinds[..|kinds| - 1] + [kinds[|kinds| - 1]];
    }
  }

  lemma NoTypesIsNoPair(items: seq<EvidenceItem>, o: Texts)
    ensures var left := Keep(items, LeftOver({}, o)); TypeHypotheses(Kinds(left), left) == [] <==> NoPair(items, o)
  {
    var left := Keep(items, LeftOver({}, o));
    NoTypes(Kinds(left), left);
    KindsDistinct(left);
    forall k: EvidenceType
      ensures Keep(left, OfKind(k)) == Keep(items, ConfiguredOfKind(k, o))
      ensures k !in Kinds(left) ==> Keep(left, OfKind(k)) == []
    {
      KeepTwice(items, LeftOver({}, o), OfKind(k), ConfiguredOfKind(k, o));
      KeepNone(left, OfKind(k));
    }
  }

  lemma RulesEmptyExactly(items: seq<EvidenceItem>, o: Texts)
    ensures FromRules(items, o) == [] <==> NoMatch(items, o) && NoPair(items, o)
  {
    NoTemplates(items, o, |TEMPLATES|);
    if TemplateHypotheses(items, o, |TEMPLATES|) == [] {
      assert Cited([]) == {};
      NoTypesIsNoPair(items, o);
    }
  }

  /** The catch-all appears, and then alone, exactly when no configured item
      matches a template and no type has two configured items. */
  lemma CatchAllExactly(items: seq<EvidenceItem>, o: Texts)
    requires DistinctItems(items) && items != []
    ensures (exists h :: h in Generated(items, o) && h.origin.CatchAll?) <==> NoMatch(items, o) && NoPair(items, o)
    ensures NoMatch(items, o) && NoPair(items, o) ==> Generated(items, o) == [Hypothesis(CatchAll, First(items, 3))]
  {
    RulesEmptyExactly(items, o);
    if FromRules(items, o) == [] {
      OnlyCatchAll(items, o);
      assert Generated(items, o)[0] == Hypothesis(CatchAll, First(items, 3));
    } else {
      NoCatchAll(items, o);
    }
  }

  lemma OnlyCatchAll(items: seq<EvidenceItem>, o: Texts)
    requires items != [] && FromRules(items, o) == []
    ensures Generated(items, o) == [Hypothesis(CatchAll, First(items, 3))]
  {
  }

  lemma NoCatchAll(items: seq<EvidenceItem>, o: Texts)
    requires DistinctItems(items) && items != [] && FromRules(items, o) != []
    ensures forall h :: h in Generated(items, o) ==> !h.origin.CatchAll?
  {
    RulesApart(items, o);
    SortMembers(FromRules(items, o), MoreCited);
  }
}
