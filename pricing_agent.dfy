/**
 * The pricing agent of lib/agents/pricing-agent.ts: one priced line per
 * technical match whose selected SKU is in the catalog, the bid total, and
 * the summary that splits it into material and testing costs. The catalog
 * is an argument.
 */
module PricingAgent {
  import opened Wrappers
  import opened Seqs
  import opened Schemas
  import OemCatalog
  import PricingTables

  /** `testingRequirements.map((testName) => ({ testName, cost: getTestingCost(testName) }))`. */
  function TestingCostsFor(tests: seq<string>): (r: seq<TestingCost>)
    ensures |r| == |tests|
  {
    seq(|tests|, i requires 0 <= i < |tests| => TestingCost(tests[i], PricingTables.TestingCost(tests[i])))
  }

  function CostOf(test: TestingCost): int {
    test.cost
  }

  /** The priced line for one technical match, or nothing when its SKU is not in the catalog. */
  function PriceLine(match_: TopMatches, tests: seq<string>, catalog: seq<OemSku>): (r: Option<PricingResult>)
    ensures r.Some? ==> r.value.sku == match_.selectedSku
  {
    match OemCatalog.ProductBySku(catalog, match_.selectedSku)
    case None => None
    case Some(product) =>
      var sku := match_.selectedSku;
      var quantity := PricingTables.DefaultQuantity(product.category);
      var materialCost := PricingTables.MaterialCost(sku, quantity);
      var testingCosts := TestingCostsFor(tests);
      var totalTestingCost := SumOf(testingCosts, CostOf);
      Some(PricingResult(sku, product.productName, PricingTables.UnitPrice(sku), quantity, materialCost,
                         testingCosts, totalTestingCost, materialCost + totalTestingCost))
  }

  /** What calculatePricing returns: the priced lines of the resolvable matches, in input order. */
  function PricingFor(matches: seq<TopMatches>, tests: seq<string>, catalog: seq<OemSku>): (r: seq<PricingResult>)
    ensures |r| <= |matches|
  {
    if matches == [] then []
    else
      var init := PricingFor(matches[..|matches| - 1], tests, catalog);
      match PriceLine(matches[|matches| - 1], tests, catalog)
      case None => init
      case Some(line) => init + [line]
  }

  /** Extending the matches by one adds that match's line, if it has one. */
  lemma PricingForSnoc(matches: seq<TopMatches>, tests: seq<string>, catalog: seq<OemSku>, i: nat)
    requires i < |matches|
    ensures PriceLine(matches[i], tests, catalog).None? ==>
      PricingFor(matches[..i + 1], tests, catalog) == PricingFor(matches[..i], tests, catalog)
    ensures PriceLine(matches[i], tests, catalog).Some? ==>
      PricingFor(matches[..i + 1], tests, catalog)
      == PricingFor(matches[..i], tests, catalog) + [PriceLine(matches[i], tests, catalog).value]
  {
    assert matches[..i + 1][..i] == matches[..i];
  }

  /** `calculatePricing`: a pass over the matches that skips unknown SKUs and pushes one line for every other. */
  method CalculatePricing(technicalMatches: seq<TopMatches>, testingRequirements: seq<string>, catalog: seq<OemSku>)
    returns (pricingResults: seq<PricingResult>)
    ensures pricingResults == PricingFor(technicalMatches, testingRequirements, catalog)
  {
    pricingResults := [];
    for i := 0 to |technicalMatches|
      invariant pricingResults == PricingFor(technicalMatches[..i], testingRequirements, catalog)
    {
      PricingForSnoc(technicalMatches, testingRequirements, catalog, i);
      var sku := technicalMatches[i].selectedSku;
      var product := OemCatalog.ProductBySku(catalog, sku);
      if product.None? {
        continue;
      }
      var unitPrice := PricingTables.UnitPrice(sku);
      var quantity := PricingTables.DefaultQuantity(product.value.category);
      var materialCost := PricingTables.MaterialCost(sku, quantity);
      var testingCosts := TestingCostsFor(testingRequirements);
      var totalTestingCost := SumOf(testingCosts, CostOf);
      var totalCost := materialCost + totalTestingCost;
      var line := PricingResult(sku, product.value.productName, unitPrice, quantity,
                                materialCost, testingCosts, totalTestingCost, totalCost);
      assert line == PriceLine(technicalMatches[i], testingRequirements, catalog).value;
      pricingResults := pricingResults + [line];
    }
    assert technicalMatches[..|technicalMatches|] == technicalMatches;
  }

  /** The sum of a line's cost list is calculateTestingCost of the tests. */
  lemma {:induction false} TestingCostsTotal(tests: seq<string>)
    ensures SumOf(TestingCostsFor(tests), CostOf) == PricingTables.TestingTotal(tests)
    decreases |tests|
  {
    if tests != [] {
      var init := tests[..|tests| - 1];
      TestingCostsTotal(init);
      assert TestingCostsFor(tests)[..|tests| - 1] == TestingCostsFor(init);
    }
  }

  /** A priced line whose material cost is price times quantity and whose total adds material and testing. */
  ghost predicate LineIsConsistent(line: PricingResult) {
    && line.materialCost == line.unitPrice * line.quantity
    && line.totalCost == line.materialCost + line.totalTestingCost
  }

  /** The selected SKU of the match is in the catalog. */
  ghost predicate Resolvable(match_: TopMatches, catalog: seq<OemSku>) {
    exists p :: p in catalog && p.sku == match_.selectedSku
  }

  /**
   * A match has a line exactly when its SKU is in the catalog. The line
   * carries the SKU, the catalog entry's name, the table price, the
   * category's default quantity, one cost per test in test order, the
   * testing total calculateTestingCost gives, and consistent totals.
   */
  lemma PriceLineFound(match_: TopMatches, tests: seq<string>, catalog: seq<OemSku>)
    ensures PriceLine(match_, tests, catalog).Some? <==> Resolvable(match_, catalog)
  {
    OemCatalog.ProductBySkuSpec(catalog, match_.selectedSku);
  }

  /** The fields of a match's line. */
  lemma PriceLineSpec(match_: TopMatches, tests: seq<string>, catalog: seq<OemSku>)
    ensures PriceLine(match_, tests, catalog).Some? ==>
      var line := PriceLine(match_, tests, catalog).value;
      var product := OemCatalog.ProductBySku(catalog, match_.selectedSku).value;
      && product in catalog
      && line.sku == match_.selectedSku == product.sku
      && line.productName == product.productName
      && line.unitPrice == PricingTables.UnitPrice(line.sku)
      && line.quantity == PricingTables.DefaultQuantity(product.category)
      && |line.testingCosts| == |tests|
      && (forall i :: 0 <= i < |tests| ==>
            line.testingCosts[i] == TestingCost(tests[i], PricingTables.TestingCost(tests[i])))
      && line.totalTestingCost == PricingTables.TestingTotal(tests)
      && LineIsConsistent(line)
  {
    OemCatalog.ProductBySkuSpec(catalog, match_.selectedSku);
    TestingCostsTotal(tests);
  }

  function LineSku(line: PricingResult): string {
    line.sku
  }

  function SelectedSkuOf(match_: TopMatches): string {
    match_.selectedSku
  }

  function SkusOf(lines: seq<PricingResult>): seq<string> {
    Map(lines, LineSku)
  }

  function SelectedSkus(matches: seq<TopMatches>): seq<string> {
    Map(matches, SelectedSkuOf)
  }

  /**
   * calculatePricing prices the matches in input order, at most once each:
   * the SKUs of its lines are a subsequence of the selected SKUs.
   */
  lemma {:induction false} PricingForOrder(matches: seq<TopMatches>, tests: seq<string>, catalog: seq<OemSku>)
    ensures Subsequence(SkusOf(PricingFor(matches, tests, catalog)), SelectedSkus(matches))
    decreases |matches|
  {
    if matches == [] {
    } else {
      var n := |matches| - 1;
      var front := matches[..n];
      var init := PricingFor(front, tests, catalog);
      PricingForOrder(front, tests, catalog);
      assert matches == front + [matches[n]];
      MapAppendOne(front, matches[n], SelectedSkuOf);
      match PriceLine(matches[n], tests, catalog)
      case Some(line) =>
        assert PricingFor(matches, tests, catalog) == init + [line];
        MapAppendOne(init, line, LineSku);
        SubsequenceSnoc(SkusOf(init), SelectedSkus(front), line.sku);
      case None =>
        assert PricingFor(matches, tests, catalog) == init;
        SubsequenceSnoc(SkusOf(init), SelectedSkus(front), matches[n].selectedSku);
    }
  }

  /** A consistent line that costs the full test list and prices a catalog SKU. */
  ghost predicate PricedLine(line: PricingResult, tests: seq<string>, catalog: seq<OemSku>) {
    && LineIsConsistent(line)
    && line.totalTestingCost == PricingTables.TestingTotal(tests)
    && exists p :: p in catalog && p.sku == line.sku
  }

  lemma PriceLinePriced(match_: TopMatches, tests: seq<string>, catalog: seq<OemSku>)
    ensures PriceLine(match_, tests, catalog).Some? ==> PricedLine(PriceLine(match_, tests, catalog).value, tests, catalog)
  {
    PriceLineSpec(match_, tests, catalog);
  }

  /** Every line of calculatePricing is consistent, costs the full test list, and prices a catalog SKU. */
  lemma {:induction false} PricingForLines(matches: seq<TopMatches>, tests: seq<string>, catalog: seq<OemSku>)
    ensures forall line :: line in PricingFor(matches, tests, catalog) ==> PricedLine(line, tests, catalog)
    decreases |matches|
  {
    if matches != [] {
      var n := |matches| - 1;
      PricingForLines(matches[..n], tests, catalog);
      PriceLinePriced(matches[n], tests, catalog);
      PricingForSnoc(matches, tests, catalog, n);
      assert matches[..n + 1] == matches;
    }
  }

  /** When every selected SKU is in the catalog, every match gets its line. */
  lemma {:induction false} PricingForKeepsResolvable(matches: seq<TopMatches>, tests: seq<string>, catalog: seq<OemSku>)
    requires forall i :: 0 <= i < |matches| ==> Resolvable(matches[i], catalog)
    ensures |PricingFor(matches, tests, catalog)| == |matches|
    decreases |matches|
  {
    if matches != [] {
      var n := |matches| - 1;
      var front := matches[..n];
      forall i | 0 <= i < n
        ensures Resolvable(front[i], catalog)
      {
        assert front[i] == matches[i];
      }
      PricingForKeepsResolvable(front, tests, catalog);
      PriceLineFound(matches[n], tests, catalog);
      PricingForSnoc(matches, tests, catalog, n);
      assert matches[..n + 1] == matches;
    }
  }

  /** A match whose selected SKU is not in the catalog (such as "") adds no line. */
  lemma UnresolvableMatchIsSkipped(matches: seq<TopMatches>, match_: TopMatches, tests: seq<string>, catalog: seq<OemSku>)
    requires !Resolvable(match_, catalog)
    ensures PricingFor(matches + [match_], tests, catalog) == PricingFor(matches, tests, catalog)
  {
    PriceLineFound(match_, tests, catalog);
    assert (matches + [match_])[..|matches|] == matches;
  }

  function TotalCostOf(line: PricingResult): int {
    line.totalCost
  }

  function MaterialCostOf(line: PricingResult): int {
    line.materialCost
  }

  function TestingCostOf(line: PricingResult): int {
    line.totalTestingCost
  }

  /** `calculateTotalBidValue`: the sum of the lines' total costs. */
  function CalculateTotalBidValue(pricingResults: seq<PricingResult>): int {
    SumOf(pricingResults, TotalCostOf)
  }

  /** The bid of no lines is 0, and bids of lists run back to back add up. */
  lemma TotalBidValueSpec(a: seq<PricingResult>, b: seq<PricingResult>)
    ensures CalculateTotalBidValue([]) == 0
    ensures CalculateTotalBidValue(a + b) == CalculateTotalBidValue(a) + CalculateTotalBidValue(b)
  {
    SumOfAppend(a, b, TotalCostOf);
  }

  /** One row of the summary's breakdown. */
  datatype BreakdownLine = BreakdownLine(product: string, materialCost: int, testingCost: int, subtotal: int)

  /** What generatePricingSummary returns. */
  datatype PricingSummary = PricingSummary(
    totalMaterialCost: int,
    totalTestingCost: int,
    totalBidValue: int,
    breakdown: seq<BreakdownLine>)

  function BreakdownOf(line: PricingResult): BreakdownLine {
    BreakdownLine(line.productName, line.materialCost, line.totalTestingCost, line.totalCost)
  }

  /** `generatePricingSummary`. */
  function GeneratePricingSummary(pricingResults: seq<PricingResult>): (summary: PricingSummary)
    ensures |summary.breakdown| == |pricingResults|
  {
    var totalMaterialCost := SumOf(pricingResults, MaterialCostOf);
    var totalTestingCost := SumOf(pricingResults, TestingCostOf);
    PricingSummary(totalMaterialCost, totalTestingCost, totalMaterialCost + totalTestingCost,
                   Map(pricingResults, BreakdownOf))
  }

  /**
   * The breakdown mirrors the lines in order; the summary's bid value is
   * material plus testing, and equals calculateTotalBidValue whenever every
   * line's total is its material plus testing cost.
   */
  lemma PricingSummarySpec(pricingResults: seq<PricingResult>)
    ensures forall i :: 0 <= i < |pricingResults| ==>
      GeneratePricingSummary(pricingResults).breakdown[i] == BreakdownLine(
        pricingResults[i].productName, pricingResults[i].materialCost,
        pricingResults[i].totalTestingCost, pricingResults[i].totalCost)
    ensures GeneratePricingSummary(pricingResults).totalBidValue
         == GeneratePricingSummary(pricingResults).totalMaterialCost
          + GeneratePricingSummary(pricingResults).totalTestingCost
    ensures (forall line :: line in pricingResults ==> LineIsConsistent(line)) ==>
      GeneratePricingSummary(pricingResults).totalBidValue == CalculateTotalBidValue(pricingResults)
  {
    if forall line :: line in pricingResults ==> LineIsConsistent(line) {
      assert forall i :: 0 <= i < |pricingResults| ==> LineIsConsistent(pricingResults[i]);
      SumOfPointwise(pricingResults, TotalCostOf, MaterialCostOf, TestingCostOf);
    }
  }

  /** For calculatePricing's own lines the summary's bid value is calculateTotalBidValue. */
  lemma SummaryAgreesWithBidValue(matches: seq<TopMatches>, tests: seq<string>, catalog: seq<OemSku>)
    ensures GeneratePricingSummary(PricingFor(matches, tests, catalog)).totalBidValue
         == CalculateTotalBidValue(PricingFor(matches, tests, catalog))
  {
    PricingForLines(matches, tests, catalog);
    PricingSummarySpec(PricingFor(matches, tests, catalog));
  }

  /** `generatePricing`: the lines of calculatePricing and their bid value. */
  method GeneratePricing(technicalMatches: seq<TopMatches>, testingRequirements: seq<string>, catalog: seq<OemSku>)
    returns (pricing: seq<PricingResult>, totalBidValue: int)
    ensures pricing == PricingFor(technicalMatches, testingRequirements, catalog)
    ensures totalBidValue == CalculateTotalBidValue(pricing)
  {
    pricing := CalculatePricing(technicalMatches, testingRequirements, catalog);
    totalBidValue := CalculateTotalBidValue(pricing);
  }
}
