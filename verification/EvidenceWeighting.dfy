/** Evidence weights: by type and freshness, then scaled to sum to one.  Floats
    are modelled as reals. */
module EvidenceWeighting {
  import opened Evidence

  datatype Strategy = Uniform | TypeBased | RecencyBased | Combined

  datatype Weighted = Weighted(item: EvidenceItem, weight: real)

  /** The default table; a type it does not list weighs 0.7. */
  function DefaultTypeWeight(k: EvidenceType): real {
    match k
    case Log => 1.0
    case Trace => 1.1
    case Code => 0.9
    case Metric => 1.0
    case ServiceCatalog => 0.8
    case Other => 0.7
    case Topology => 0.7
  }

  function Newest(items: seq<EvidenceItem>): (t: int)
    requires items != []
    ensures forall e :: e in items ==> e.collectedAt <= t
    ensures exists e :: e in items && e.collectedAt == t
  {
    var n := |items| - 1;
    assert items == items[..n] + [items[n]];
    if n == 0 || items[n].collectedAt >= Newest(items[..n]) then items[n].collectedAt else Newest(items[..n])
  }

  function Oldest(items: seq<EvidenceItem>): (t: int)
    requires items != []
    ensures forall e :: e in items ==> t <= e.collectedAt
    ensures exists e :: e in items && e.collectedAt == t
  {
    var n := |items| - 1;
    assert items == items[..n] + [items[n]];
    if n == 0 || items[n].collectedAt <= Oldest(items[..n]) then items[n].collectedAt else Oldest(items[..n])
  }

  function AtLeast(low: real, x: real): real {
    if x < low then low else x
  }

  function AtMost(high: real, x: real): real {
    if x > high then high else x
  }

  /** Between one half for the oldest item and one for the newest. */
  function Recency(e: EvidenceItem, items: seq<EvidenceItem>): real
    requires items != []
  {
    var span := Newest(items) - Oldest(items);
    if span <= 0 then 1.0
    else
      var age := AtLeast(0.0, (Newest(items) - e.collectedAt) as real);
      0.5 + 0.5 * AtLeast(0.0, AtMost(1.0, 1.0 - age / (span as real)))
  }

  /** The mean of the factors the strategy uses. */
  function Raw(e: EvidenceItem, items: seq<EvidenceItem>, s: Strategy, typeWeight: EvidenceType -> real): real
    requires items != []
  {
    match s
    case Uniform => 1.0
    case TypeBased => typeWeight(e.kind)
    case RecencyBased => Recency(e, items)
    case Combined => (typeWeight(e.kind) + Recency(e, items)) / 2.0
  }

  function Raws(items: seq<EvidenceItem>, s: Strategy, typeWeight: EvidenceType -> real): seq<Weighted> {
    seq(|items|, i requires 0 <= i < |items| => Weighted(items[i], Raw(items[i], items, s, typeWeight)))
  }

  function Total(ws: seq<Weighted>): real {
    if ws == [] then 0.0 else Total(ws[..|ws| - 1]) + ws[|ws| - 1].weight
  }

  function Scaled(ws: seq<Weighted>, total: real): seq<Weighted>
    requires total != 0.0
  {
    seq(|ws|, i requires 0 <= i < |ws| => ws[i].(weight := ws[i].weight / total))
  }

  function Weights(items: seq<EvidenceItem>, s: Strategy, typeWeight: EvidenceType -> real): seq<Weighted> {
    var raws := Raws(items, s, typeWeight);
    if Total(raws) > 0.0 then Scaled(raws, Total(raws)) else raws
  }

  /** The weight of an id: the last entry for it, or nothing. */
  function Lookup(ws: seq<Weighted>, id: string): real {
    if ws == [] then 0.0
    else if ws[|ws| - 1].item.id == id then ws[|ws| - 1].weight
    else Lookup(ws[..|ws| - 1], id)
  }

  function AggregateWeight(ids: seq<string>, ws: seq<Weighted>): real {
    if ids == [] then 0.0 else AggregateWeight(ids[..|ids| - 1], ws) + Lookup(ws, ids[|ids| - 1])
  }

  // ----- the code -----

  method Weigh(items: seq<EvidenceItem>, s: Strategy, typeWeight: EvidenceType -> real) returns (ws: seq<Weighted>)
    ensures ws == Weights(items, s, typeWeight)
  {
    ws := [];
    var total := 0.0;
    ghost var raws := Raws(items, s, typeWeight);
    for i := 0 to |items|
      invariant ws == raws[..i] && total == Total(raws[..i])
    {
      assert raws[..i + 1][..i] == raws[..i];
      ws := ws + [Weighted(items[i], Raw(items[i], items, s, typeWeight))];
      total := total + ws[i].weight;
    }
    assert raws[..|items|] == raws;
    if total > 0.0 {
      for i := 0 to |ws|
        invariant |ws| == |raws| && total == Total(raws)
        invariant forall j :: 0 <= j < i ==> ws[j] == raws[j].(weight := raws[j].weight / total)
        invariant forall j :: i <= j < |ws| ==> ws[j] == raws[j]
      {
        ws := ws[i := ws[i].(weight := ws[i].weight / total)];
      }
    }
  }

  // ----- normalisation -----

  lemma RecencyBounds(e: EvidenceItem, items: seq<EvidenceItem>)
    requires e in items
    ensures 0.5 <= Recency(e, items) <= 1.0
    ensures Recency(e, items) == 1.0 <==> e.collectedAt == Newest(items)
    ensures Recency(e, items) == 0.5 <==> e.collectedAt == Oldest(items) < Newest(items)
  {
    var span := Newest(items) - Oldest(items);
    if span > 0 {
      Share((Newest(items) - e.collectedAt) as real, span as real);
    }
  }

  lemma Share(a: real, t: real)
    requires 0.0 <= a <= t && t > 0.0
    ensures 0.0 <= a / t <= 1.0 && (a == t <==> a / t == 1.0) && (a == 0.0 <==> a / t == 0.0)
  {
  }

  /** Fresher items never weigh less by freshness. */
  lemma RecencyIsMonotone(d: EvidenceItem, e: EvidenceItem, items: seq<EvidenceItem>)
    requires d in items && e in items && d.collectedAt <= e.collectedAt
    ensures Recency(d, items) <= Recency(e, items)
  {
    var span := Newest(items) - Oldest(items);
    if span > 0 {
      var x, y := (Newest(items) - e.collectedAt) as real, (Newest(items) - d.collectedAt) as real;
      DivideMonotone(x, y, span as real);
    }
  }

  lemma DivideMonotone(x: real, y: real, t: real)
    requires 0.0 <= x <= y && t > 0.0
    ensures x / t <= y / t
  {
  }

  lemma {:induction false} TotalPositive(ws: seq<Weighted>)
    requires ws != [] && forall w :: w in ws ==> w.weight > 0.0
    ensures Total(ws) > 0.0
  {
    if |ws| > 1 {
      TotalPositive(ws[..|ws| - 1]);
    }
  }

  lemma {:induction false} TotalScaled(ws: seq<Weighted>, t: real)
    requires t > 0.0
    ensures Total(Scaled(ws, t)) == Total(ws) / t
  {
    if ws != [] {
      var n := |ws| - 1;
      TotalScaled(ws[..n], t);
      assert Scaled(ws, t)[..n] == Scaled(ws[..n], t);
      DivideSum(Total(ws[..n]), ws[n].weight, t);
    }
  }

  lemma DivideSum(a: real, b: real, t: real)
    requires t > 0.0
    ensures a / t + b / t == (a + b) / t
  {
  }

  /** Under any strategy and any table of positive weights, the weights of a
      non-empty pack are positive, sum to one and keep the items in order. */
  lemma WeightsSumToOne(items: seq<EvidenceItem>, s: Strategy, typeWeight: EvidenceType -> real)
    requires items != [] && forall k :: typeWeight(k) > 0.0
    ensures var ws := Weights(items, s, typeWeight);
      && Total(ws) == 1.0 && |ws| == |items|
      && forall i :: 0 <= i < |items| ==> ws[i].item == items[i] && ws[i].weight > 0.0
  {
    RawsPositive(items, s, typeWeight);
    ScaledSums(Raws(items, s, typeWeight));
  }

  lemma RawsPositive(items: seq<EvidenceItem>, s: Strategy, typeWeight: EvidenceType -> real)
    requires items != [] && forall k :: typeWeight(k) > 0.0
    ensures forall w :: w in Raws(items, s, typeWeight) ==> w.weight > 0.0
  {
    forall i | 0 <= i < |items|
      ensures Raw(items[i], items, s, typeWeight) > 0.0
    {
      RecencyBounds(items[i], items);
    }
  }

  lemma ScaledSums(ws: seq<Weighted>)
    requires ws != [] && forall w :: w in ws ==> w.weight > 0.0
    ensures Total(ws) > 0.0 && Total(Scaled(ws, Total(ws))) == 1.0
    ensures forall i :: 0 <= i < |ws| ==> Scaled(ws, Total(ws))[i].weight > 0.0
  {
    TotalPositive(ws);
    TotalScaled(ws, Total(ws));
    Share(Total(ws), Total(ws));
    forall i | 0 <= i < |ws|
      ensures ws[i].weight / Total(ws) > 0.0
    {
      DividePositive(ws[i].weight, Total(ws));
    }
  }

  /** Under the combined strategy an item that is neither of a lighter type nor
      older never weighs less. */
  lemma WeightsFollowFactors(items: seq<EvidenceItem>, typeWeight: EvidenceType -> real, i: nat, j: nat)
    requires i < |items| && j < |items| && forall k :: typeWeight(k) > 0.0
    requires typeWeight(items[i].kind) <= typeWeight(items[j].kind) && items[i].collectedAt <= items[j].collectedAt
    ensures |Weights(items, Combined, typeWeight)| == |items|
    ensures Weights(items, Combined, typeWeight)[i].weight <= Weights(items, Combined, typeWeight)[j].weight
  {
    var raws := Raws(items, Combined, typeWeight);
    RecencyIsMonotone(items[i], items[j], items);
    RawsPositive(items, Combined, typeWeight);
    TotalPositive(raws);
    DivideMonotone(raws[i].weight, raws[j].weight, Total(raws));
  }

  lemma DividePositive(a: real, t: real)
    requires a > 0.0 && t > 0.0
    ensures a / t > 0.0
  {
  }

  lemma DefaultsArePositive()
    ensures forall k :: DefaultTypeWeight(k) > 0.0
  {
  }

  // ----- how far the default weights spread -----

  /** As heavy as the default table and the age allow: a trace of the newest date. */
  predicate TopFactors(e: EvidenceItem, items: seq<EvidenceItem>)
    requires items != []
  {
    e.kind == Trace && e.collectedAt == Newest(items)
  }

  /** As light: a type the table does not list, of the oldest date. */
  predicate LowFactors(e: EvidenceItem, items: seq<EvidenceItem>)
    requires items != []
  {
    (e.kind == Topology || e.kind == Other) && e.collectedAt == Oldest(items) < Newest(items)
  }

  lemma DefaultRawBounds(e: EvidenceItem, items: seq<EvidenceItem>)
    requires e in items
    ensures 0.6 <= Raw(e, items, Combined, DefaultTypeWeight) <= 1.05
    ensures Raw(e, items, Combined, DefaultTypeWeight) == 1.05 <==> TopFactors(e, items)
    ensures Raw(e, items, Combined, DefaultTypeWeight) == 0.6 <==> LowFactors(e, items)
  {
    RecencyBounds(e, items);
  }

  lemma DivideByOne(x: real, y: real, t: real)
    requires 0.6 <= x <= 1.05 && 0.6 <= y <= 1.05 && t > 0.0
    ensures x / t <= 1.75 * (y / t)
    ensures x / t == 1.75 * (y / t) <==> x == 1.05 && y == 0.6
  {
    assert 1.75 * (y / t) == (1.75 * y) / t;
    assert (1.75 * y - x) / t == (1.75 * y) / t - x / t;
    if x < 1.75 * y {
      DividePositive(1.75 * y - x, t);
    }
  }

  /** Under the strategy and table an analysis uses, no item weighs more than seven
      quarters of another, and exactly a newest trace against an oldest item of an
      unlisted type, when the dates differ, reaches that. */
  lemma DefaultSpread(items: seq<EvidenceItem>, i: nat, j: nat)
    requires i < |items| && j < |items|
    ensures var ws := Weights(items, Combined, DefaultTypeWeight);
      && |ws| == |items| && ws[i].weight <= 1.75 * ws[j].weight
      && (ws[i].weight == 1.75 * ws[j].weight <==> TopFactors(items[i], items) && LowFactors(items[j], items))
  {
    var raws := Raws(items, Combined, DefaultTypeWeight);
    DefaultsArePositive();
    RawsPositive(items, Combined, DefaultTypeWeight);
    TotalPositive(raws);
    DefaultRawBounds(items[i], items);
    DefaultRawBounds(items[j], items);
    DivideByOne(raws[i].weight, raws[j].weight, Total(raws));
  }

  /** Every weight is within a factor of seven quarters of this one. */
  ghost predicate Near(ws: seq<Weighted>, base: real) {
    forall i :: 0 <= i < |ws| ==> base <= 1.75 * ws[i].weight && ws[i].weight <= 1.75 * base
  }

  function Times(x: real, n: nat): real {
    x * n as real
  }

  lemma OnceMore(x: real, n: nat)
    ensures Times(x, n + 1) == Times(x, n) + x && Times(x, 0) == 0.0
  {
  }

  lemma {:induction false} TotalNear(ws: seq<Weighted>, base: real)
    requires Near(ws, base)
    ensures Times(base, |ws|) <= 1.75 * Total(ws) && Total(ws) <= 1.75 * Times(base, |ws|)
  {
    if ws == [] {
      OnceMore(base, 0);
    } else {
      var n := |ws| - 1;
      TotalNear(ws[..n], base);
      OnceMore(base, n);
    }
  }

  lemma PackIsNear(items: seq<EvidenceItem>, ws: seq<Weighted>, i: nat)
    requires ws == Weights(items, Combined, DefaultTypeWeight) && i < |ws| == |items|
    ensures Near(ws, ws[i].weight)
  {
    forall j | 0 <= j < |ws|
      ensures ws[i].weight <= 1.75 * ws[j].weight && ws[j].weight <= 1.75 * ws[i].weight
    {
      DefaultSpread(items, i, j);
      DefaultSpread(items, j, i);
    }
  }

  /** So among n items no share is further from 1/n than by that factor: no item
      dominates a pack, and none is ignored. */
  lemma DefaultShare(items: seq<EvidenceItem>, i: nat)
    requires i < |items|
    ensures var ws := Weights(items, Combined, DefaultTypeWeight);
      && |ws| == |items|
      && 1.0 <= 1.75 * Times(ws[i].weight, |items|) && Times(ws[i].weight, |items|) <= 1.75
  {
    var ws := Weights(items, Combined, DefaultTypeWeight);
    DefaultsArePositive();
    WeightsSumToOne(items, Combined, DefaultTypeWeight);
    PackIsNear(items, ws, i);
    TotalNear(ws, ws[i].weight);
  }

  // ----- aggregate weight -----

  lemma {:induction false} LookupNonNegative(ws: seq<Weighted>, id: string)
    requires forall w :: w in ws ==> w.weight >= 0.0
    ensures Lookup(ws, id) >= 0.0
  {
    if ws != [] {
      LookupNonNegative(ws[..|ws| - 1], id);
    }
  }

  /** One more entry can raise the aggregate of distinct ids only by its own
      weight. */
  lemma {:induction false} AggregateOneMore(ids: seq<string>, q: seq<Weighted>, w: Weighted)
    requires NoRepeat(ids) && w.weight >= 0.0 && forall v :: v in q ==> v.weight >= 0.0
    ensures AggregateWeight(ids, q + [w]) <= AggregateWeight(ids, q) + (if w.item.id in ids then w.weight else 0.0)
  {
    if ids != [] {
      var n := |ids| - 1;
      AggregateOneMore(ids[..n], q, w);
      assert (q + [w])[..|q|] == q;
      assert ids == ids[..n] + [ids[n]];
      LookupNonNegative(q, ids[n]);
      assert ids[n] !in ids[..n];
    }
  }

  lemma {:induction false} AggregateNonNegative(ids: seq<string>, ws: seq<Weighted>)
    requires forall w :: w in ws ==> w.weight >= 0.0
    ensures AggregateWeight(ids, ws) >= 0.0
  {
    if ids != [] {
      AggregateNonNegative(ids[..|ids| - 1], ws);
      LookupNonNegative(ws, ids[|ids| - 1]);
    }
  }

  lemma {:induction false} AggregateOfNothing(ids: seq<string>)
    ensures AggregateWeight(ids, []) == 0.0
  {
    if ids != [] {
      AggregateOfNothing(ids[..|ids| - 1]);
    }
  }

  /** Distinct ids together never weigh more than everything. */
  lemma {:induction false} AggregateAtMostTotal(ids: seq<string>, ws: seq<Weighted>)
    requires NoRepeat(ids) && forall w :: w in ws ==> w.weight >= 0.0
    ensures 0.0 <= AggregateWeight(ids, ws) <= Total(ws)
  {
    AggregateNonNegative(ids, ws);
    if ws == [] {
      AggregateOfNothing(ids);
    } else {
      var n := |ws| - 1;
      AggregateAtMostTotal(ids, ws[..n]);
      AggregateOneMore(ids, ws[..n], ws[n]);
      assert ws == ws[..n] + [ws[n]];
    }
  }
}
