/**
 * The record shapes of the RFP pipeline (the zod schemas of
 * lib/schemas/rfp-schemas.ts). Every record is a value; an absent optional
 * `unit` is the empty string.
 */
module Schemas {

  /** One named attribute with a textual value and a unit ("" when none). */
  datatype TechnicalSpec = TechnicalSpec(parameter: string, value: string, unit: string)

  /** One RFP line item and its requirements. */
  datatype ProductSpec = ProductSpec(productName: string, specifications: seq<TechnicalSpec>)

  /** One catalog offering. */
  datatype OemSku = OemSku(sku: string, productName: string, category: string, specifications: seq<TechnicalSpec>)

  /** One row of a comparison table. */
  datatype ComparisonRow = ComparisonRow(parameter: string, rfpValue: string, oemValue: string, matches: bool)

  /** The score of one catalog entry against one requirement set. */
  datatype SpecMatchResult = SpecMatchResult(
    sku: string,
    productName: string,
    specMatchPercentage: int,
    matchingParams: int,
    totalParams: int,
    comparisonTable: seq<ComparisonRow>)

  /** The ranked candidates for one RFP product and the SKU chosen among them. */
  datatype TopMatches = TopMatches(productName: string, topMatches: seq<SpecMatchResult>, selectedSku: string)

  /** The cost of one test of the bid. */
  datatype TestingCost = TestingCost(testName: string, cost: int)

  /** The priced line of one selected SKU. */
  datatype PricingResult = PricingResult(
    sku: string,
    productName: string,
    unitPrice: int,
    quantity: int,
    materialCost: int,
    testingCosts: seq<TestingCost>,
    totalTestingCost: int,
    totalCost: int)
}
