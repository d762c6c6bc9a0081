/**
 * The synthetic price lists of lib/data/pricing-tables.ts: the unit price of
 * every catalog SKU, the price of every test service and the default order
 * quantity of every category, with the lookups and cost sums built on them.
 * A lookup `table[key] || fallback` yields the fallback both for a missing key
 * and for a listed value of 0; all listed values are positive, so only
 * missing keys reach the fallback.
 */
module PricingTables {
  import opened Seqs
  import OemCatalog

  /** `unitPricingTable`: the price of one unit (a metre of cable, a transformer, a panel) of every SKU. */
  function UnitPricingTable(): map<string, int> {
    map[
      "SKU-XLPE-11KV-A" := 1250,
      "SKU-XLPE-11KV-B" := 1450,
      "SKU-XLPE-11KV-C" := 980,
      "SKU-XLPE-33KV-A" := 2800,
      "SKU-XFMR-1000KVA-A" := 450000,
      "SKU-XFMR-1500KVA-A" := 625000,
      "SKU-SWGR-11KV-VCB" := 385000,
      "SKU-SWGR-11KV-ACB" := 425000,
      "SKU-CTRL-LT-PANEL-A" := 125000
    ]
  }

  /** `testingPricingTable`: the price of every test service. */
  function TestingPricingTable(): map<string, int> {
    map[
      "High Voltage Test" := 15000,
      "Insulation Resistance Test" := 8000,
      "Partial Discharge Test" := 25000,
      "Thermal Aging Test" := 35000,
      "Short Circuit Test" := 45000,
      "Tensile Strength Test" := 12000,
      "Elongation Test" := 10000,
      "Impact Test" := 18000,
      "Water Immersion Test" := 20000,
      "Fire Resistance Test" := 30000,
      "UV Resistance Test" := 22000,
      "No Load Loss Test" := 18000,
      "Load Loss Test" := 20000,
      "Temperature Rise Test" := 28000,
      "Impulse Voltage Test" := 40000,
      "Breaking Capacity Test" := 50000,
      "Making Capacity Test" := 45000,
      "Mechanical Endurance Test" := 35000,
      "Type Test" := 75000,
      "Routine Test" := 25000,
      "Sample Test" := 15000
    ]
  }

  /** `defaultQuantities`: the quantity bid for a product of each category. */
  function DefaultQuantities(): map<string, int> {
    map[
      "Power Cables" := 1000,
      "Transformers" := 2,
      "Switchgear" := 3,
      "Control Panels" := 5
    ]
  }

  /** `table[key] || fallback`. */
  function LookupOr(table: map<string, int>, key: string, fallback: int): int {
    if key in table && table[key] != 0 then table[key] else fallback
  }

  /** Every listed value is a positive integer. */
  ghost predicate AllPositive(table: map<string, int>) {
    forall key :: key in table ==> table[key] > 0
  }

  /** For a table of positive values the lookup is the listed value, or the fallback for a missing key. */
  lemma LookupOrSpec(table: map<string, int>, key: string, fallback: int)
    requires AllPositive(table)
    ensures key in table ==> LookupOr(table, key, fallback) == table[key]
    ensures key !in table ==> LookupOr(table, key, fallback) == fallback
  {
  }

  /** Every unit price is a positive integer. */
  lemma UnitPricesPositive()
    ensures AllPositive(UnitPricingTable())
  {
  }

  /** Every test price is a positive integer. */
  lemma TestPricesPositive()
    ensures AllPositive(TestingPricingTable())
  {
  }

  /** Every default quantity is a positive integer. */
  lemma QuantitiesPositive()
    ensures AllPositive(DefaultQuantities())
  {
  }

  /** The priced SKUs are exactly the catalog's SKUs. */
  lemma UnitPricesCoverCatalog()
    ensures forall i :: 0 <= i < |OemCatalog.Catalog| ==> OemCatalog.Catalog[i].sku in UnitPricingTable()
    ensures forall sku :: sku in UnitPricingTable() ==> exists i :: 0 <= i < |OemCatalog.Catalog| && OemCatalog.Catalog[i].sku == sku
  {
    OemCatalog.CatalogSkus();
  }

  /** `getUnitPrice`. */
  function UnitPrice(sku: string): int {
    LookupOr(UnitPricingTable(), sku, 0)
  }

  /** `getTestingCost`: exact, case-sensitive test names. */
  function TestingCost(testName: string): int {
    LookupOr(TestingPricingTable(), testName, 0)
  }

  /** `getDefaultQuantity`. */
  function DefaultQuantity(category: string): int {
    LookupOr(DefaultQuantities(), category, 1)
  }

  /** `calculateMaterialCost`. */
  function MaterialCost(sku: string, quantity: int): int {
    UnitPrice(sku) * quantity
  }

  /** `calculateTestingCost`: the left-to-right sum of the tests' costs. */
  function TestingTotal(tests: seq<string>): int {
    SumOf(tests, TestingCost)
  }

  /** A listed SKU costs its table price, any other string 0. */
  lemma UnitPriceSpec(sku: string)
    ensures sku in UnitPricingTable() ==> UnitPrice(sku) == UnitPricingTable()[sku] > 0
    ensures sku !in UnitPricingTable() ==> UnitPrice(sku) == 0
    ensures UnitPrice(sku) >= 0
  {
    UnitPricesPositive();
    LookupOrSpec(UnitPricingTable(), sku, 0);
  }

  /** A listed test costs its table price, any other name 0. */
  lemma TestingCostSpec(testName: string)
    ensures testName in TestingPricingTable() ==> TestingCost(testName) == TestingPricingTable()[testName] > 0
    ensures testName !in TestingPricingTable() ==> TestingCost(testName) == 0
    ensures TestingCost(testName) >= 0
  {
    TestPricesPositive();
    LookupOrSpec(TestingPricingTable(), testName, 0);
  }

  /** A listed category has its table quantity, any other category 1. */
  lemma DefaultQuantitySpec(category: string)
    ensures category in DefaultQuantities() ==> DefaultQuantity(category) == DefaultQuantities()[category]
    ensures category !in DefaultQuantities() ==> DefaultQuantity(category) == 1
    ensures DefaultQuantity(category) >= 1
  {
    QuantitiesPositive();
    LookupOrSpec(DefaultQuantities(), category, 1);
  }

  /** The four categories of the catalog are bid at 1000 metres, 2 transformers, 3 and 5 panels. */
  lemma CategoryQuantities()
    ensures DefaultQuantity("Power Cables") == 1000
    ensures DefaultQuantity("Transformers") == 2
    ensures DefaultQuantity("Switchgear") == 3
    ensures DefaultQuantity("Control Panels") == 5
  {
  }

  /** Test names are exact keys: a differently cased name is unpriced. */
  lemma TestNamesAreCaseSensitive(testName: string)
    requires testName == "high voltage test"
    ensures TestingCost(testName) == 0
  {
  }

  /** The material cost is the unit price times the quantity; an unknown SKU costs nothing. */
  lemma MaterialCostSpec(sku: string, quantity: int)
    ensures MaterialCost(sku, quantity) == UnitPrice(sku) * quantity
    ensures sku !in UnitPricingTable() ==> MaterialCost(sku, quantity) == 0
    ensures quantity >= 0 ==> MaterialCost(sku, quantity) >= 0
  {
    UnitPriceSpec(sku);
  }

  /**
   * The testing total is never negative, is 0 for no tests, adds up over
   * lists run back to back, and does not depend on the order of the tests.
   */
  lemma TestingTotalSpec(a: seq<string>, b: seq<string>)
    ensures TestingTotal([]) == 0
    ensures TestingTotal(a) >= 0
    ensures TestingTotal(a + b) == TestingTotal(a) + TestingTotal(b)
    ensures multiset(a) == multiset(b) ==> TestingTotal(a) == TestingTotal(b)
  {
    forall i | 0 <= i < |a|
      ensures TestingCost(a[i]) >= 0
    {
      TestingCostSpec(a[i]);
    }
    SumOfNonNegative(a, TestingCost);
    SumOfAppend(a, b, TestingCost);
    if multiset(a) == multiset(b) {
      SumOfPermutation(a, b, TestingCost);
    }
  }

  /** Unknown tests add nothing to the total. */
  lemma UnknownTestAddsNothing(tests: seq<string>, testName: string)
    requires testName !in TestingPricingTable()
    ensures TestingTotal(tests + [testName]) == TestingTotal(tests)
  {
    TestingCostSpec(testName);
    assert (tests + [testName])[..|tests|] == tests;
  }
}
