/**
 * The OEM product catalog of lib/data/oem-catalog.ts and its three
 * lookups. The source's lookups read the module's catalog constant; here
 * the catalog is their first argument and callers pass `Catalog`.
 */
module OemCatalog {
  import opened Wrappers
  import opened JsText
  import opened Seqs
  import opened Schemas

  /** The nine catalog offerings, in catalog order. */
  const Catalog: seq<OemSku> := [
    OemSku("SKU-XLPE-11KV-A", "11kV XLPE Power Cable - Premium", "Power Cables", [
      TechnicalSpec("Voltage Rating", "11", "kV"),
      TechnicalSpec("Insulation Type", "XLPE", ""),
      TechnicalSpec("Conductor Material", "Aluminum", ""),
      TechnicalSpec("Conductor Size", "240", "sq.mm"),
      TechnicalSpec("Number of Cores", "3", ""),
      TechnicalSpec("Temperature Rating", "90", "°C"),
      TechnicalSpec("Sheath Material", "PVC", ""),
      TechnicalSpec("Armoring", "Steel Wire Armored", ""),
      TechnicalSpec("Standard", "IS 7098", "")
    ]),
    OemSku("SKU-XLPE-11KV-B", "11kV XLPE Power Cable - Standard", "Power Cables", [
      TechnicalSpec("Voltage Rating", "11", "kV"),
      TechnicalSpec("Insulation Type", "XLPE", ""),
      TechnicalSpec("Conductor Material", "Copper", ""),
      TechnicalSpec("Conductor Size", "185", "sq.mm"),
      TechnicalSpec("Number of Cores", "3", ""),
      TechnicalSpec("Temperature Rating", "90", "°C"),
      TechnicalSpec("Sheath Material", "LSZH", ""),
      TechnicalSpec("Armoring", "Steel Wire Armored", ""),
      TechnicalSpec("Standard", "IS 7098", "")
    ]),
    OemSku("SKU-XLPE-11KV-C", "11kV XLPE Power Cable - Economy", "Power Cables", [
      TechnicalSpec("Voltage Rating", "11", "kV"),
      TechnicalSpec("Insulation Type", "XLPE", ""),
      TechnicalSpec("Conductor Material", "Aluminum", ""),
      TechnicalSpec("Conductor Size", "150", "sq.mm"),
      TechnicalSpec("Number of Cores", "3", ""),
      TechnicalSpec("Temperature Rating", "85", "°C"),
      TechnicalSpec("Sheath Material", "PVC", ""),
      TechnicalSpec("Armoring", "Galvanized Steel Tape", ""),
      TechnicalSpec("Standard", "IS 7098", "")
    ]),
    OemSku("SKU-XLPE-33KV-A", "33kV XLPE Power Cable - Premium", "Power Cables", [
      TechnicalSpec("Voltage Rating", "33", "kV"),
      TechnicalSpec("Insulation Type", "XLPE", ""),
      TechnicalSpec("Conductor Material", "Copper", ""),
      TechnicalSpec("Conductor Size", "400", "sq.mm"),
      TechnicalSpec("Number of Cores", "3", ""),
      TechnicalSpec("Temperature Rating", "90", "°C"),
      TechnicalSpec("Sheath Material", "LSZH", ""),
      TechnicalSpec("Armoring", "Double Steel Wire Armored", ""),
      TechnicalSpec("Standard", "IS 7098", "")
    ]),
    OemSku("SKU-XFMR-1000KVA-A", "1000 kVA Distribution Transformer", "Transformers", [
      TechnicalSpec("Capacity", "1000", "kVA"),
      TechnicalSpec("Primary Voltage", "11", "kV"),
      TechnicalSpec("Secondary Voltage", "433", "V"),
      TechnicalSpec("Cooling Type", "ONAN", ""),
      TechnicalSpec("Insulation Class", "A", ""),
      TechnicalSpec("Frequency", "50", "Hz"),
      TechnicalSpec("Efficiency", "98.5", "%"),
      TechnicalSpec("Standard", "IS 1180", "")
    ]),
    OemSku("SKU-XFMR-1500KVA-A", "1500 kVA Distribution Transformer", "Transformers", [
      TechnicalSpec("Capacity", "1500", "kVA"),
      TechnicalSpec("Primary Voltage", "11", "kV"),
      TechnicalSpec("Secondary Voltage", "433", "V"),
      TechnicalSpec("Cooling Type", "ONAN", ""),
      TechnicalSpec("Insulation Class", "A", ""),
      TechnicalSpec("Frequency", "50", "Hz"),
      TechnicalSpec("Efficiency", "98.7", "%"),
      TechnicalSpec("Standard", "IS 1180", "")
    ]),
    OemSku("SKU-SWGR-11KV-VCB", "11kV Vacuum Circuit Breaker Panel", "Switchgear", [
      TechnicalSpec("Voltage Rating", "11", "kV"),
      TechnicalSpec("Current Rating", "630", "A"),
      TechnicalSpec("Breaking Capacity", "25", "kA"),
      TechnicalSpec("Type", "VCB", ""),
      TechnicalSpec("Number of Poles", "3", ""),
      TechnicalSpec("Insulation Type", "SF6", ""),
      TechnicalSpec("Standard", "IS 13118", "")
    ]),
    OemSku("SKU-SWGR-11KV-ACB", "11kV Air Circuit Breaker Panel", "Switchgear", [
      TechnicalSpec("Voltage Rating", "11", "kV"),
      TechnicalSpec("Current Rating", "800", "A"),
      TechnicalSpec("Breaking Capacity", "31.5", "kA"),
      TechnicalSpec("Type", "ACB", ""),
      TechnicalSpec("Number of Poles", "3", ""),
      TechnicalSpec("Insulation Type", "Air", ""),
      TechnicalSpec("Standard", "IS 13118", "")
    ]),
    OemSku("SKU-CTRL-LT-PANEL-A", "LT Control Panel - 415V", "Control Panels", [
      TechnicalSpec("Voltage Rating", "415", "V"),
      TechnicalSpec("Current Rating", "400", "A"),
      TechnicalSpec("Number of Outgoing Feeders", "8", ""),
      TechnicalSpec("Protection Type", "MCB + MCCB", ""),
      TechnicalSpec("Enclosure Rating", "IP54", ""),
      TechnicalSpec("Standard", "IS 8623", "")
    ])
  ]

  /** No SKU occurs twice. */
  ghost predicate DistinctSkus(catalog: seq<OemSku>) {
    forall i, j :: 0 <= i < j < |catalog| ==> catalog[i].sku != catalog[j].sku
  }

  /** The catalog's SKUs, in catalog order. */
  lemma CatalogSkus()
    ensures |Catalog| == 9
    ensures Catalog[0].sku == "SKU-XLPE-11KV-A"
    ensures Catalog[1].sku == "SKU-XLPE-11KV-B"
    ensures Catalog[2].sku == "SKU-XLPE-11KV-C"
    ensures Catalog[3].sku == "SKU-XLPE-33KV-A"
    ensures Catalog[4].sku == "SKU-XFMR-1000KVA-A"
    ensures Catalog[5].sku == "SKU-XFMR-1500KVA-A"
    ensures Catalog[6].sku == "SKU-SWGR-11KV-VCB"
    ensures Catalog[7].sku == "SKU-SWGR-11KV-ACB"
    ensures Catalog[8].sku == "SKU-CTRL-LT-PANEL-A"
  {
  }

  /** The catalog has nine entries and no SKU occurs twice. */
  lemma CatalogSkusDistinct()
    ensures |Catalog| == 9
    ensures DistinctSkus(Catalog)
  {
    assert Catalog[0].sku == "SKU-XLPE-11KV-A";
    assert Catalog[1].sku == "SKU-XLPE-11KV-B";
    assert Catalog[2].sku == "SKU-XLPE-11KV-C";
    assert Catalog[3].sku == "SKU-XLPE-33KV-A";
    assert Catalog[4].sku == "SKU-XFMR-1000KVA-A";
    assert Catalog[5].sku == "SKU-XFMR-1500KVA-A";
    assert Catalog[6].sku == "SKU-SWGR-11KV-VCB";
    assert Catalog[7].sku == "SKU-SWGR-11KV-ACB";
    assert Catalog[8].sku == "SKU-CTRL-LT-PANEL-A";
  }

  /** `getProductsByCategory`: the entries of that exact category. */
  function ProductsByCategory(catalog: seq<OemSku>, category: string): (r: seq<OemSku>)
    ensures |r| <= |catalog|
  {
    Filter(catalog, (product: OemSku) => product.category == category)
  }

  /** Exactly the entries of the category, each as often as in the catalog, in catalog order. */
  lemma ProductsByCategorySpec(catalog: seq<OemSku>, category: string)
    ensures forall p :: p in ProductsByCategory(catalog, category) <==> p in catalog && p.category == category
    ensures Subsequence(ProductsByCategory(catalog, category), catalog)
    ensures forall p :: multiset(ProductsByCategory(catalog, category))[p]
                     == if p.category == category then multiset(catalog)[p] else 0
  {
    FilterMultiset(catalog, (product: OemSku) => product.category == category);
  }

  /** `getProductBySKU`: the first entry whose SKU is `sku`, if any. */
  function ProductBySku(catalog: seq<OemSku>, sku: string): (r: Option<OemSku>)
    ensures r.Some? ==> r.value in catalog && r.value.sku == sku
  {
    match FindIndex(catalog, (product: OemSku) => product.sku == sku)
    case Some(k) => Some(catalog[k])
    case None => None
  }

  /** Absent exactly when no entry has the SKU; otherwise the first entry that has it. */
  lemma ProductBySkuSpec(catalog: seq<OemSku>, sku: string)
    ensures ProductBySku(catalog, sku).None? <==> forall p :: p in catalog ==> p.sku != sku
    ensures ProductBySku(catalog, sku).Some? ==>
      exists k :: (0 <= k < |catalog| && ProductBySku(catalog, sku).value == catalog[k]
                   && forall j :: 0 <= j < k ==> catalog[j].sku != sku)
  {
    var found := FindIndex(catalog, (product: OemSku) => product.sku == sku);
    if found.Some? {
      assert ProductBySku(catalog, sku).value == catalog[found.value];
    }
  }

  /** In a catalog without repeated SKUs (such as `Catalog`) every SKU finds its own entry. */
  lemma ProductBySkuFindsEntry(catalog: seq<OemSku>, k: nat)
    requires DistinctSkus(catalog)
    requires k < |catalog|
    ensures ProductBySku(catalog, catalog[k].sku) == Some(catalog[k])
  {
    ProductBySkuSpec(catalog, catalog[k].sku);
  }

  /** The search test of `searchProducts` for an already lower-cased query. */
  predicate NameOrSkuContains(product: OemSku, lowerQuery: string) {
    Contains(ToLower(product.productName), lowerQuery) || Contains(ToLower(product.sku), lowerQuery)
  }

  /** `searchProducts`: the entries whose lower-cased name or SKU contains the lower-cased query. */
  function SearchProducts(catalog: seq<OemSku>, query: string): (r: seq<OemSku>)
    ensures |r| <= |catalog|
  {
    var lowerQuery := ToLower(query);
    Filter(catalog, (product: OemSku) => NameOrSkuContains(product, lowerQuery))
  }

  /**
   * Exactly the entries whose name or SKU contains the query, ignoring case,
   * each as often as in the catalog, in catalog order.
   */
  lemma SearchProductsSpec(catalog: seq<OemSku>, query: string)
    ensures forall p :: p in SearchProducts(catalog, query) <==> p in catalog && NameOrSkuContains(p, ToLower(query))
    ensures Subsequence(SearchProducts(catalog, query), catalog)
    ensures forall p :: multiset(SearchProducts(catalog, query))[p]
                     == if NameOrSkuContains(p, ToLower(query)) then multiset(catalog)[p] else 0
  {
    FilterMultiset(catalog, (product: OemSku) => NameOrSkuContains(product, ToLower(query)));
  }

  /** The empty query matches every entry. */
  lemma SearchEmptyQuery(catalog: seq<OemSku>)
    ensures SearchProducts(catalog, "") == catalog
  {
    var test := (product: OemSku) => NameOrSkuContains(product, ToLower(""));
    forall i | 0 <= i < |catalog|
      ensures test(catalog[i])
    {
      assert StartsWith(ToLower(catalog[i].productName), "");
    }
    FilterAll(catalog, test);
  }

  /** Upper- and lower-case queries find the same entries. */
  lemma SearchIgnoresQueryCase(catalog: seq<OemSku>, query: string)
    ensures SearchProducts(catalog, query) == SearchProducts(catalog, ToLower(query))
  {
    ToLowerOfLowerCase(ToLower(query));
  }
}
