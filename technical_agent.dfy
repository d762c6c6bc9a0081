/**
 * The technical agent of lib/agents/technical-agent.ts: for every RFP
 * product the three best catalog entries and the SKU chosen among them, and
 * a worded verdict on the best entry. The catalog is an argument.
 */
module TechnicalAgent {
  import opened JsText
  import opened Seqs
  import opened Schemas
  import opened Ranker
  import Utils

  /** How many candidates each product keeps. */
  const TopCount := 3

  /** `topMatches.length > 0 ? topMatches[0].sku : ""`. */
  function SelectedSku(topMatches: seq<SpecMatchResult>): string {
    if |topMatches| > 0 then topMatches[0].sku else ""
  }

  /** The record findMatches pushes for one product. */
  function TopMatchesFor(productSpec: ProductSpec, catalog: seq<OemSku>): TopMatches {
    var topMatches := RankedTop(productSpec, catalog, TopCount);
    TopMatches(productSpec.productName, topMatches, SelectedSku(topMatches))
  }

  /** What findMatches returns: one record per product, in input order. */
  function MatchesFor(productSpecs: seq<ProductSpec>, catalog: seq<OemSku>): (r: seq<TopMatches>)
    ensures |r| == |productSpecs|
  {
    Map(productSpecs, MatchAgainst(catalog))
  }

  /** The record of one product against the catalog, as a function. */
  function MatchAgainst(catalog: seq<OemSku>): ProductSpec -> TopMatches {
    (productSpec: ProductSpec) => TopMatchesFor(productSpec, catalog)
  }

  /** Record `i` belongs to product `i`. */
  lemma MatchesForAt(productSpecs: seq<ProductSpec>, catalog: seq<OemSku>, i: nat)
    requires i < |productSpecs|
    ensures MatchesFor(productSpecs, catalog)[i] == TopMatchesFor(productSpecs[i], catalog)
  {
  }

  /**
   * Every record names its product, keeps at most three candidates (fewer
   * only when the catalog is smaller), and selects the first candidate's
   * SKU, or "" when there is none.
   */
  lemma TopMatchesForSpec(productSpec: ProductSpec, catalog: seq<OemSku>)
    ensures TopMatchesFor(productSpec, catalog).productName == productSpec.productName
    ensures |TopMatchesFor(productSpec, catalog).topMatches| == if |catalog| < 3 then |catalog| else 3
    ensures TopMatchesFor(productSpec, catalog).topMatches == RankedTop(productSpec, catalog, 3)
    ensures catalog == [] ==> TopMatchesFor(productSpec, catalog).selectedSku == ""
    ensures catalog != [] ==>
      TopMatchesFor(productSpec, catalog).selectedSku == TopMatchesFor(productSpec, catalog).topMatches[0].sku
  {
    RankedTopLength(productSpec, catalog, TopCount);
  }

  /** The selected SKU is the SKU of the first catalog entry with the highest percentage. */
  lemma SelectedSkuIsBest(productSpec: ProductSpec, catalog: seq<OemSku>)
    requires catalog != []
    ensures exists k :: (IsFirstMaximum(Scores(productSpec, catalog), k)
                         && TopMatchesFor(productSpec, catalog).selectedSku == catalog[k].sku)
  {
    RankedTopLength(productSpec, catalog, TopCount);
    RankedTopHead(productSpec, catalog, TopCount);
  }

  /** `findMatches`: one pass over the products, pushing one record each. */
  method FindMatches(productSpecs: seq<ProductSpec>, catalog: seq<OemSku>) returns (allMatches: seq<TopMatches>)
    ensures allMatches == MatchesFor(productSpecs, catalog)
  {
    allMatches := [];
    for i := 0 to |productSpecs|
      invariant allMatches == MatchesFor(productSpecs[..i], catalog)
    {
      var productSpec := productSpecs[i];
      var topMatches := FindTopMatches(productSpec, catalog, TopCount);
      var selectedSku := if |topMatches| > 0 then topMatches[0].sku else "";
      allMatches := allMatches + [TopMatches(productSpec.productName, topMatches, selectedSku)];
      MapSnoc(productSpecs, MatchAgainst(catalog), i);
    }
    assert productSpecs[..|productSpecs|] == productSpecs;
  }

  /** `evaluateRFP`: the whole technical evaluation is findMatches. */
  method EvaluateRfp(productSpecs: seq<ProductSpec>, catalog: seq<OemSku>) returns (r: seq<TopMatches>)
    ensures r == MatchesFor(productSpecs, catalog)
  {
    r := FindMatches(productSpecs, catalog);
  }

  const NoMatchText := "No matching products found in OEM catalog."
  const ExcellentPrefix := "Excellent match found: "
  const GoodPrefix := "Good match found: "
  const PartialPrefix := "Partial match found: "

  /** The part of a verdict after its opening words. */
  function Details(best: SpecMatchResult, remark: string): string {
    best.productName + " with " + IntToDecimal(best.specMatchPercentage) + "% specification match." + remark
  }

  /** The verdict analyzeMatch words for a ranked candidate list, judged on its head. */
  function Recommendation(topMatches: seq<SpecMatchResult>): string {
    if |topMatches| == 0 then NoMatchText
    else if topMatches[0].specMatchPercentage >= 90 then
      ExcellentPrefix + Details(topMatches[0], "")
    else if topMatches[0].specMatchPercentage >= 70 then
      GoodPrefix + Details(topMatches[0], " Minor differences exist.")
    else
      PartialPrefix + Details(topMatches[0], " Significant differences exist - review required.")
  }

  /**
   * The verdict's opening words name its tier: the no-match text exactly for
   * an empty list, otherwise "Excellent" from 90, "Good" from 70 to 89 and
   * "Partial" below 70.
   */
  lemma RecommendationTiers(topMatches: seq<SpecMatchResult>)
    ensures Recommendation(topMatches) == NoMatchText <==> topMatches == []
    ensures StartsWith(Recommendation(topMatches), ExcellentPrefix)
        <==> topMatches != [] && topMatches[0].specMatchPercentage >= 90
    ensures StartsWith(Recommendation(topMatches), GoodPrefix)
        <==> topMatches != [] && 70 <= topMatches[0].specMatchPercentage < 90
    ensures StartsWith(Recommendation(topMatches), PartialPrefix)
        <==> topMatches != [] && topMatches[0].specMatchPercentage < 70
  {
    var r := Recommendation(topMatches);
    assert NoMatchText[0] == 'N' && ExcellentPrefix[0] == 'E' && GoodPrefix[0] == 'G' && PartialPrefix[0] == 'P';
    StartsWithHead(r, ExcellentPrefix);
    StartsWithHead(r, GoodPrefix);
    StartsWithHead(r, PartialPrefix);
    if topMatches != [] {
      var pct := topMatches[0].specMatchPercentage;
      if pct >= 90 {
        StartsWithConcat(ExcellentPrefix, Details(topMatches[0], ""));
      } else if pct >= 70 {
        StartsWithConcat(GoodPrefix, Details(topMatches[0], " Minor differences exist."));
      } else {
        StartsWithConcat(PartialPrefix, Details(topMatches[0], " Significant differences exist - review required."));
      }
    }
  }

  /**
   * The verdict's "Excellent" and "Good" tiers are the bands of the same
   * names that the interface shows for the head's percentage; the
   * "Partial" tier covers both lower bands, "Fair" and "Poor".
   */
  lemma RecommendationAgreesWithQuality(topMatches: seq<SpecMatchResult>)
    requires topMatches != []
    ensures var band := Utils.GetMatchQuality(topMatches[0].specMatchPercentage as real).name;
      && (StartsWith(Recommendation(topMatches), ExcellentPrefix) <==> band == "Excellent")
      && (StartsWith(Recommendation(topMatches), GoodPrefix) <==> band == "Good")
      && (StartsWith(Recommendation(topMatches), PartialPrefix) <==> band == "Fair" || band == "Poor")
  {
    RecommendationTiers(topMatches);
    Utils.GetMatchQualitySpec(topMatches[0].specMatchPercentage as real);
  }

  /** `analyzeMatch`: the top three candidates and the verdict on them. */
  method AnalyzeMatch(productSpec: ProductSpec, catalog: seq<OemSku>)
    returns (topMatches: seq<SpecMatchResult>, recommendation: string)
    ensures topMatches == RankedTop(productSpec, catalog, TopCount)
    ensures recommendation == Recommendation(topMatches)
  {
    topMatches := FindTopMatches(productSpec, catalog, TopCount);
    recommendation := Recommendation(topMatches);
  }
}
