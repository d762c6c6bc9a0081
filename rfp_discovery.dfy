/**
 * The discovery rules of lib/services/rfp-discovery-service.ts: the
 * relevance score of a tender, the criteria filter over discovered tenders,
 * and their qualification. The random tender generator is not modelled.
 */
module RfpDiscovery {
  import opened Wrappers
  import opened JsText
  import opened Seqs

  datatype RfpStatus = Discovered | Qualified | Processed | Rejected

  /** One tender found on a procurement portal. */
  datatype DiscoveredRfp = DiscoveredRfp(
    id: string,
    rfpName: string,
    source: string,
    dueDate: string,
    discoveredDate: string,
    products: seq<string>,
    estimatedValue: int,
    relevanceScore: int,
    status: RfpStatus,
    daysUntilDue: int)

  /** The product categories a tender is relevant for. */
  const RelevantCategories: seq<string> := [
    "Power Cables",
    "Transformers",
    "Switchgear",
    "Control Panels",
    "Electrical Equipment",
    "Substation Equipment",
    "Distribution Equipment"
  ]

  // ------------------------------------------------------------ relevance

  /** `categories.some((category) => lowerProduct.includes(category.toLowerCase()))`. */
  predicate MentionsAny(lowerProduct: string, categories: seq<string>)
    decreases |categories|
  {
    if categories == [] then false
    else if Contains(lowerProduct, ToLower(categories[0])) then true
    else MentionsAny(lowerProduct, categories[1..])
  }

  lemma {:induction false} MentionsAnySpec(lowerProduct: string, categories: seq<string>)
    ensures MentionsAny(lowerProduct, categories)
        <==> exists k :: 0 <= k < |categories| && Contains(lowerProduct, ToLower(categories[k]))
    decreases |categories|
  {
    if categories != [] {
      MentionsAnySpec(lowerProduct, categories[1..]);
      if !Contains(lowerProduct, ToLower(categories[0])) {
        forall k | 0 < k < |categories|
          ensures categories[k] == categories[1..][k - 1]
        {
        }
      }
    }
  }

  /** The product names one of the relevant categories, ignoring case. */
  predicate IsRelevantProduct(product: string) {
    MentionsAny(ToLower(product), RelevantCategories)
  }

  /** `products.filter(IsRelevantProduct).length`. */
  function RelevantCount(products: seq<string>): (k: nat)
    ensures k <= |products|
  {
    |Filter(products, IsRelevantProduct)|
  }

  /** Every product relevant gives the full count; none relevant gives 0. */
  lemma RelevantCountSpec(products: seq<string>)
    ensures (forall i :: 0 <= i < |products| ==> IsRelevantProduct(products[i])) ==> RelevantCount(products) == |products|
    ensures (forall i :: 0 <= i < |products| ==> !IsRelevantProduct(products[i])) ==> RelevantCount(products) == 0
  {
    if forall i :: 0 <= i < |products| ==> IsRelevantProduct(products[i]) {
      FilterAll(products, IsRelevantProduct);
    }
    var kept := Filter(products, IsRelevantProduct);
    assert kept != [] ==> kept[0] in products && IsRelevantProduct(kept[0]);
  }

  /** `Math.round`: halves go up. */
  function Round(x: real): int {
    (x + 0.5).Floor
  }

  /**
   * The relevance score without the cap at 100: 50, plus 40 times the
   * share of relevant products, plus 10 points for two weeks or more to the
   * due date and 5 for one week or more, rounded.
   */
  function RelevanceScore(relevant: nat, total: nat, daysUntilDue: int): int
    requires relevant <= total && total > 0
  {
    Round(50.0 + (relevant as real / total as real) * 40.0
          + if daysUntilDue >= 14 then 10.0 else if daysUntilDue >= 7 then 5.0 else 0.0)
  }

  /** `calculateRelevanceScore`: the running score of a tender; nothing for no products (JavaScript's NaN). */
  method CalculateRelevanceScore(products: seq<string>, daysUntilDue: int) returns (r: Option<int>)
    ensures products == [] <==> r.None?
    ensures r.Some? ==> r.value == RelevanceScore(RelevantCount(products), |products|, daysUntilDue)
  {
    if |products| == 0 {
      return None;
    }
    var score: real := 50.0;
    var relevantProductCount := RelevantCount(products);
    score := score + (relevantProductCount as real / |products| as real) * 40.0;
    if daysUntilDue >= 14 {
      score := score + 10.0;
    } else if daysUntilDue >= 7 {
      score := score + 5.0;
    }
    ShareBounds(relevantProductCount, |products|);
    var capped := if score < 100.0 then score else 100.0;
    r := Some(Round(capped));
  }

  /** A share of relevant products is between 0 and 1. */
  lemma ShareBounds(relevant: nat, total: nat)
    requires relevant <= total && total > 0
    ensures 0.0 <= relevant as real / total as real <= 1.0
  {
    var share := relevant as real / total as real;
    assert share * total as real == relevant as real;
  }

  /** `Math.round` never decreases. */
  lemma RoundMonotone(x: real, y: real)
    requires x <= y
    ensures Round(x) <= Round(y)
  {
    assert (x + 0.5).Floor as real <= x + 0.5 <= y + 0.5;
  }

  /** Every score lies between 50 and 100, so the cap at 100 never changes it. */
  lemma RelevanceScoreBounds(relevant: nat, total: nat, daysUntilDue: int)
    requires relevant <= total && total > 0
    ensures 50 <= RelevanceScore(relevant, total, daysUntilDue) <= 100
  {
    ShareBounds(relevant, total);
    var share := relevant as real / total as real;
    RoundMonotone(50.0, 50.0 + share * 40.0 + if daysUntilDue >= 14 then 10.0 else if daysUntilDue >= 7 then 5.0 else 0.0);
    RoundMonotone(50.0 + share * 40.0 + if daysUntilDue >= 14 then 10.0 else if daysUntilDue >= 7 then 5.0 else 0.0, 100.0);
  }

  /** A tender of relevant products only, due in two weeks or more, scores 100; one of none, due within a week, 50. */
  lemma RelevanceScoreExtremes(total: nat, daysUntilDue: int)
    requires total > 0
    ensures daysUntilDue >= 14 ==> RelevanceScore(total, total, daysUntilDue) == 100
    ensures daysUntilDue < 7 ==> RelevanceScore(0, total, daysUntilDue) == 50
  {
    assert total as real / total as real == 1.0;
  }

  /** More relevant products, or more days to the due date, never lower the score. */
  lemma RelevanceScoreMonotone(relevant: nat, relevant': nat, total: nat, days: int, days': int)
    requires relevant <= relevant' <= total && total > 0
    requires days <= days'
    ensures RelevanceScore(relevant, total, days) <= RelevanceScore(relevant', total, days')
  {
    var share := relevant as real / total as real;
    var share' := relevant' as real / total as real;
    assert share * total as real == relevant as real;
    assert share' * total as real == relevant' as real;
    assert share <= share';
    RoundMonotone(
      50.0 + share * 40.0 + if days >= 14 then 10.0 else if days >= 7 then 5.0 else 0.0,
      50.0 + share' * 40.0 + if days' >= 14 then 10.0 else if days' >= 7 then 5.0 else 0.0);
  }

  // --------------------------------------------------------------- filter

  /** The optional criteria of `filterRFPs`; an absent field imposes nothing. */
  datatype Criteria = Criteria(
    maxDaysUntilDue: Option<int>,
    minRelevanceScore: Option<int>,
    sources: Option<seq<string>>)

  /**
   * The filter's test with JavaScript truthiness: a bound that is absent or 0
   * is skipped, while a sources list is tested whenever it is present, even
   * when it is empty.
   */
  predicate Keeps(criteria: Criteria, rfp: DiscoveredRfp) {
    && !(criteria.maxDaysUntilDue.Some? && criteria.maxDaysUntilDue.value != 0
         && rfp.daysUntilDue > criteria.maxDaysUntilDue.value)
    && !(criteria.minRelevanceScore.Some? && criteria.minRelevanceScore.value != 0
         && rfp.relevanceScore < criteria.minRelevanceScore.value)
    && !(criteria.sources.Some? && rfp.source !in criteria.sources.value)
  }

  /** `filterRFPs`. */
  function FilterRfps(rfps: seq<DiscoveredRfp>, criteria: Criteria): (r: seq<DiscoveredRfp>)
    ensures |r| <= |rfps|
  {
    Filter(rfps, (rfp: DiscoveredRfp) => Keeps(criteria, rfp))
  }

  /**
   * The filter keeps, in their order and as often as they occur, exactly the
   * tenders that meet every provided criterion: due within the maximum,
   * scored at least the minimum, and from one of the sources.
   */
  lemma FilterRfpsSpec(rfps: seq<DiscoveredRfp>, criteria: Criteria, rfp: DiscoveredRfp)
    ensures Subsequence(FilterRfps(rfps, criteria), rfps)
    ensures rfp in FilterRfps(rfps, criteria) <==>
      && rfp in rfps
      && (criteria.maxDaysUntilDue.Some? && criteria.maxDaysUntilDue.value != 0
          ==> rfp.daysUntilDue <= criteria.maxDaysUntilDue.value)
      && (criteria.minRelevanceScore.Some? && criteria.minRelevanceScore.value != 0
          ==> rfp.relevanceScore >= criteria.minRelevanceScore.value)
      && (criteria.sources.Some? ==> rfp.source in criteria.sources.value)
    ensures multiset(FilterRfps(rfps, criteria))[rfp] ==
      if && (criteria.maxDaysUntilDue.Some? && criteria.maxDaysUntilDue.value != 0
             ==> rfp.daysUntilDue <= criteria.maxDaysUntilDue.value)
         && (criteria.minRelevanceScore.Some? && criteria.minRelevanceScore.value != 0
             ==> rfp.relevanceScore >= criteria.minRelevanceScore.value)
         && (criteria.sources.Some? ==> rfp.source in criteria.sources.value)
      then multiset(rfps)[rfp] else 0
  {
    FilterMultiset(rfps, (rfp: DiscoveredRfp) => Keeps(criteria, rfp));
  }

  /** Bounds of 0 and absent sources keep every tender. */
  lemma ZeroBoundsKeepAll(rfps: seq<DiscoveredRfp>)
    ensures FilterRfps(rfps, Criteria(Some(0), Some(0), None)) == rfps
    ensures FilterRfps(rfps, Criteria(None, None, None)) == rfps
  {
    FilterAll(rfps, (rfp: DiscoveredRfp) => Keeps(Criteria(Some(0), Some(0), None), rfp));
    FilterAll(rfps, (rfp: DiscoveredRfp) => Keeps(Criteria(None, None, None), rfp));
  }

  /** A present but empty sources list rejects every tender. */
  lemma EmptySourcesRejectAll(rfps: seq<DiscoveredRfp>, criteria: Criteria)
    requires criteria.sources == Some([])
    ensures FilterRfps(rfps, criteria) == []
  {
    var r := FilterRfps(rfps, criteria);
    assert r != [] ==> Keeps(criteria, r[0]);
  }

  // -------------------------------------------------------------- qualify

  /** A tender scored 75 or more becomes qualified; any other keeps its status. */
  function Qualify(rfp: DiscoveredRfp): DiscoveredRfp {
    rfp.(status := if rfp.relevanceScore >= 75 then Qualified else rfp.status)
  }

  /** `qualifyRFPs`. */
  function QualifyRfps(rfps: seq<DiscoveredRfp>): (r: seq<DiscoveredRfp>)
    ensures |r| == |rfps|
  {
    Map(rfps, Qualify)
  }

  /**
   * Qualification keeps the tenders and their order and changes nothing but
   * the status; a tender ends qualified exactly when it scored 75 or more or
   * was qualified already, so no tender is demoted, and qualifying twice is
   * qualifying once.
   */
  lemma QualifyRfpsSpec(rfps: seq<DiscoveredRfp>)
    ensures forall i :: 0 <= i < |rfps| ==> QualifyRfps(rfps)[i] == rfps[i].(status := QualifyRfps(rfps)[i].status)
    ensures forall i :: 0 <= i < |rfps| ==>
      (QualifyRfps(rfps)[i].status == Qualified <==> rfps[i].relevanceScore >= 75 || rfps[i].status == Qualified)
    ensures forall i :: 0 <= i < |rfps| && rfps[i].relevanceScore < 75 ==> QualifyRfps(rfps)[i].status == rfps[i].status
    ensures QualifyRfps(QualifyRfps(rfps)) == QualifyRfps(rfps)
  {
  }
}
