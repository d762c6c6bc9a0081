# rfp-x core, modelled in Dafny

rfp-x drafts responses to requests for proposal (RFPs) for electrical
equipment. This project models its deterministic core and proves
properties of the model:

- the **specification-matching engine** (`lib/engines/spec-matcher.ts`):
  - normalising parameter values and extracting a number from free text;
  - comparing two values, first by normalised text, then within a 5 %
    numeric tolerance relative to the requirement, then through a synonym
    table;
  - aligning a requirement with a catalog parameter, first by exact name,
    then by name containment;
  - scoring one catalog SKU by the rounded share of matching parameters;
  - ranking a whole catalog with a stable descending sort cut after N
    (`findTopMatches`) and taking the best entry (`getBestMatch`);
- the **technical agent**: the top three SKUs of every RFP product, the
  selected SKU and the worded verdict;
- the **OEM catalog** and its three lookups;
- the **pricing tables** and the **pricing agent**: priced lines, the bid
  total and the material/testing summary;
- the **discovery rules**: relevance score, criteria filter and
  qualification;
- the **match-quality bands** of `lib/utils.ts` and the **RFP-text
  validation** of the orchestrator.

One module per source concern:

| module | file | models |
|---|---|---|
| Wrappers | wrappers.dfy | the `Option` type |
| Seqs | seqs.dfy | `find`, `filter`, `map`, `reduce`-sums and their laws |
| JsText | jstext.dfy | `toLowerCase`, `trim`, `replace(/\s+/g, " ")`, `includes`, `startsWith`, number printing |
| Schemas | schemas.dfy | the records the agents exchange |
| SpecMatcher | spec_matcher.dfy | the engine up to `calculateSpecMatch` |
| Ranker | ranker.dfy | `findTopMatches`, `getBestMatch` |
| TechnicalAgent | technical_agent.dfy | `findMatches`, `analyzeMatch`, `evaluateRFP` |
| OemCatalog | oem_catalog.dfy | the catalog and its lookups |
| PricingTables | pricing_tables.dfy | the three tables and their lookups |
| PricingAgent | pricing_agent.dfy | `calculatePricing`, bid value, summary |
| RfpDiscovery | rfp_discovery.dfy | relevance score, `filterRFPs`, `qualifyRFPs` |
| Utils | utils.dfy | `getMatchQuality` |
| Orchestrator | orchestrator.dfy | `validateRFPInput` |

Some functions are written as loops in the source. Each becomes a Dafny
`method` with the same loop, proved equal to a specification function:
- `calculateSpecMatch`, `findMatches` and `calculatePricing`;
- the in-place `Array.prototype.sort` of `findTopMatches`, modelled as an
  in-place insertion sort on an `array`.

`validateRFPInput`, which has no loop, becomes a method that appends its
errors one check at a time. It is proved equal to a specification function
too.

The properties are then proved about the specification functions.

The model follows the code where it differs from the written description
of the system. That description says a requirement number of 0 skips the
tolerance rule and falls through to the synonym table. In the code, as
soon as both values carry a number, the tolerance test alone decides. With
a requirement number of 0 that test is `NaN <= 0.05` or
`Infinity <= 0.05`, which is false. So "0" never matches "0.0"
(`SpecMatcher.ZeroRequirementNeverWithinTolerance`).

Numbers are exact: JavaScript numbers become `int` or `real`, and
`Math.round` becomes `Floor(x + 0.5)`.

The catalog is a parameter of every lookup, the agents and the ranker;
callers pass `OemCatalog.Catalog`, the source's constant.

## Model

| member | source | states |
|---|---|---|
| `Seqs.FindIndex` | lib/data/oem-catalog.ts:164-166 | `find`: the index found is the first whose element passes the test; nothing is found exactly when no element passes |
| `Seqs.Filter` | lib/data/oem-catalog.ts:157-159 | `filter`: exactly the elements that pass are kept, and they stay in their original order (a subsequence of the input) |
| `Seqs.FilterMultiset` | lib/data/oem-catalog.ts:157-159 | `filter` keeps every passing element as often as it occurs in the input, and drops every other element |
| `JsText.TrimSpec` | lib/agents/orchestrator.ts:225 | `trim` leaves no whitespace at either end, returns a contiguous slice of the input, cuts only whitespace before and after that slice, and returns empty exactly when the text is all whitespace |
| `JsText.TrimAround` | lib/engines/spec-matcher.ts:19 | `trim` of whitespace, a middle part that neither starts nor ends with whitespace, and more whitespace is that middle part |
| `JsText.Utf16LengthSpec` | lib/agents/orchestrator.ts:229 | `length` counts UTF-16 code units: a text in the Basic Multilingual Plane has one per character, and characters beyond it take two each |
| `JsText.CollapseSpacesRun` | lib/engines/spec-matcher.ts:19 | `replace(/\s+/g, " ")` turns a whole whitespace run into one space |
| `JsText.CollapseSpacesAppend` | lib/engines/spec-matcher.ts:19 | `replace(/\s+/g, " ")` works run by run: cut anywhere except inside a whitespace run, the result is the results of the parts joined. With `CollapseSpacesRun` and `CollapseOfCollapsed`, this fixes the result on every text: non-whitespace characters are kept in order, and each maximal run becomes one space |
| `JsText.CollapseWords` | lib/engines/spec-matcher.ts:19 | two words with any whitespace run between them become the words joined by one space |
| `JsText.CollapseSpacesSpec` | lib/engines/spec-matcher.ts:19 | `replace(/\s+/g, " ")` leaves no two adjacent whitespace characters, only plain spaces, returns empty exactly for the empty string, and starts and ends with whitespace exactly when the input does |
| `SpecMatcher.NormalizeValueShape` | lib/engines/spec-matcher.ts:18-20 | a normalised value is lower case, has no outer whitespace, and has only single spaces inside |
| `SpecMatcher.NormalizeTidy` | lib/engines/spec-matcher.ts:18-20 | an already trimmed, single-spaced value normalises to its lower-case form |
| `SpecMatcher.NormalizeExample` | lib/engines/spec-matcher.ts:18-20 | "  Copper\tCable " normalises to "copper cable" |
| `SpecMatcher.NormalizeTwoWords` | lib/engines/spec-matcher.ts:18-20 | two words joined by a single space normalise to the two words in lower case |
| `SpecMatcher.NormalizeIdempotent` | lib/engines/spec-matcher.ts:18-20 | normalising twice is normalising once |
| `SpecMatcher.DigitRun` | lib/engines/spec-matcher.ts:26 | the run read is the longest prefix made only of digits (the greedy `\d+`) |
| `SpecMatcher.ExtractNumericValueSpec` | lib/engines/spec-matcher.ts:25-28 | a number is extracted exactly when some digit occurs, and it is never negative |
| `SpecMatcher.ExtractAtFirstDigit` | lib/engines/spec-matcher.ts:25-28 | the number is read from the first digit of the text onwards |
| `SpecMatcher.WholeNumber` | lib/engines/spec-matcher.ts:26-27 | a digit run not followed by "." parses to its integer value |
| `SpecMatcher.DecimalNumber` | lib/engines/spec-matcher.ts:26-27 | digits, ".", and fraction digits parse to the decimal they spell |
| `SpecMatcher.ExtractDecimalExample` | lib/engines/spec-matcher.ts:25-28 | "98.5" yields 98.5 |
| `SpecMatcher.ExtractSkipsTextExample` | lib/engines/spec-matcher.ts:25-28 | "IS 7098" yields 7098: leading text is skipped |
| `SpecMatcher.ExtractStopsAtTextExample` | lib/engines/spec-matcher.ts:25-28 | "3 Core" yields 3: the unit after the number is ignored |
| `SpecMatcher.ToleranceIsRelativeDifference` | lib/engines/spec-matcher.ts:47-52 | the tolerance test is the source's relative difference `abs(r - o) / r <= 0.05`, i.e. o lies within 95 %..105 % of a positive r |
| `SpecMatcher.SameSynonymClassSpec` | lib/engines/spec-matcher.ts:54-68 | the synonym loop answers whether some class lists both normalised values |
| `SpecMatcher.ValuesMatchRules` | lib/engines/spec-matcher.ts:34-71 | the three rules with first-applicable precedence: equal normal forms match; otherwise two numbers match iff within tolerance; otherwise iff they share a synonym class; the parameter name never matters |
| `SpecMatcher.ValuesMatchReflexive` | lib/engines/spec-matcher.ts:38-41 | every value matches itself and its lower-case form |
| `SpecMatcher.MatchByNumbers` | lib/engines/spec-matcher.ts:43-52 | once the normal forms differ and both numbers exist, the answer is the tolerance test alone (no synonym fallback) |
| `SpecMatcher.MatchBySynonyms` | lib/engines/spec-matcher.ts:54-70 | once the normal forms differ and the requirement has no number, the answer is the synonym test |
| `SpecMatcher.ToleranceExamples` | lib/engines/spec-matcher.ts:47-52 | "100 kV" matches "104 kV" and does not match "106 kV" |
| `SpecMatcher.ToleranceIsAsymmetric` | lib/engines/spec-matcher.ts:50-51 | "100" accepts "95", but "95" rejects "100": the tolerance is relative to the requirement |
| `SpecMatcher.ZeroRequirementNeverWithinTolerance` | lib/engines/spec-matcher.ts:47-52 | a requirement of "0" does not match "0.0" |
| `SpecMatcher.SynonymExample` | lib/engines/spec-matcher.ts:55-68 | "Cu" matches "Copper" |
| `SpecMatcher.XlpeSynonymExample` | lib/engines/spec-matcher.ts:55-68 | "XLPE" matches "Cross-Linked Polyethylene", whatever the parameter |
| `SpecMatcher.DifferentMaterialsExample` | lib/engines/spec-matcher.ts:55-70 | "Aluminum" does not match "Copper" |
| `SpecMatcher.FirstNamedSpec` | lib/engines/spec-matcher.ts:81-85 | the exact-name search finds the first parameter with the same normalised name, and nothing exactly when none has it |
| `SpecMatcher.FirstOverlappingSpec` | lib/engines/spec-matcher.ts:88-95 | the fuzzy search finds the first parameter whose normalised name contains or is contained in the requirement's, and nothing exactly when none does |
| `SpecMatcher.FindMatchingParameterSpec` | lib/engines/spec-matcher.ts:76-98 | the aligner finds nothing exactly when no catalog name overlaps; otherwise it finds the first exact-name parameter, or, when there is none, the first overlapping one |
| `SpecMatcher.ExactNameWins` | lib/engines/spec-matcher.ts:80-85 | a parameter with the exact name is never passed over for an overlapping one |
| `SpecMatcher.AlignExactAt` | lib/engines/spec-matcher.ts:80-85 | the first parameter with the requirement's normalised name is the one aligned |
| `SpecMatcher.AlignByContainmentExample` | lib/engines/spec-matcher.ts:87-95 | with no parameter of the same name, "Voltage" is aligned with "Voltage Rating", which contains it |
| `SpecMatcher.AlignSecondExample` | lib/engines/spec-matcher.ts:80-85 | "Conductor Material" passes over "Voltage Rating" for the parameter of its own name |
| `SpecMatcher.CountMatchesSpec` | lib/engines/spec-matcher.ts:126-128 | the matching count equals the row count exactly when every row matches, and is 0 exactly when none does |
| `SpecMatcher.MatchPercentage` | lib/engines/spec-matcher.ts:141-143 | the percentage lies in 0..100 and is 0 when there are no requirements |
| `SpecMatcher.MatchPercentageRounds` | lib/engines/spec-matcher.ts:141-143 | the percentage is within half a point of 100 times the share of matches (nearest whole number) |
| `SpecMatcher.MatchPercentageMonotone` | lib/engines/spec-matcher.ts:141-143 | more matches never give a lower percentage |
| `SpecMatcher.FullPercentage` | lib/engines/spec-matcher.ts:141-143 | below 200 requirements, 100 % means every requirement matched |
| `SpecMatcher.CompareAllAt` | lib/engines/spec-matcher.ts:113-137 | row i of the table compares requirement i |
| `SpecMatcher.SpecMatch` | lib/engines/spec-matcher.ts:104-153 | the result carries the SKU and name of the catalog entry, one row per requirement, `0 <= matchingParams <= totalParams`, the count of matching rows, and the rounded percentage in 0..100 |
| `SpecMatcher.SpecMatchRows` | lib/engines/spec-matcher.ts:113-137 | row i names requirement i; it shows its value, followed by " " and the unit when the unit is not empty; it matches exactly when an aligned parameter exists and its value matches; it shows the aligned parameter's value and unit the same way, or "Not Specified" when there is none |
| `SpecMatcher.FullScoreMeansAllMatch` | lib/engines/spec-matcher.ts:141-143 | below 200 requirements, a score of 100 means there is at least one requirement and every row matches, and conversely |
| `SpecMatcher.ScoringExample` | lib/engines/spec-matcher.ts:104-153 | {Voltage Rating 11 kV, Conductor Material Aluminum} against {11 kV, Copper}: the voltage row matches, the material row does not, 1 of 2 parameters match, and the score is 50 |
| `SpecMatcher.CalculateSpecMatch` | lib/engines/spec-matcher.ts:104-153 | the loop that pushes rows and counts matches computes `SpecMatch` |
| `Ranker.ScoresAt` | lib/engines/spec-matcher.ts:164 | score i is the score of catalog entry i |
| `Ranker.ScoreAll` | lib/engines/spec-matcher.ts:164 | a fresh array holding the score of every catalog entry, in catalog order |
| `Ranker.InsertPermutes` | lib/engines/spec-matcher.ts:167 | one insertion step adds exactly the inserted entry |
| `Ranker.InsertSorted` | lib/engines/spec-matcher.ts:167 | one insertion step keeps a descending sequence descending |
| `Ranker.SortByScoreSpec` | lib/engines/spec-matcher.ts:167 | the sort returns a permutation of its input, ordered by non-increasing percentage |
| `Ranker.SortIsStable` | lib/engines/spec-matcher.ts:167 | for every percentage, the entries with that percentage keep their input order (ties stay in catalog order) |
| `Ranker.InsertAt` | lib/engines/spec-matcher.ts:167 | an entry is inserted right after the last entry scoring at least as much |
| `Ranker.SortedHeadIsFirstMaximum` | lib/engines/spec-matcher.ts:167 | the head of the sorted scores is the first entry with the highest percentage |
| `Ranker.InsertionStep` | lib/engines/spec-matcher.ts:167 | shifting the entries scoring below `a[i]` one place right and dropping it in the gap inserts it into the sorted prefix; the rest of the array is untouched |
| `Ranker.SortInPlace` | lib/engines/spec-matcher.ts:167 | the in-place sort leaves the array equal to the stable descending sort of its old contents |
| `Ranker.SliceEnd` | lib/engines/spec-matcher.ts:170 | `slice(0, n)` ends at n for 0 <= n <= length, at the length for larger n, and counts back from the end for negative n |
| `Ranker.RankedTopLength` | lib/engines/spec-matcher.ts:158-171 | for n >= 0 the result has `min(n, catalog size)` entries; an empty catalog gives none |
| `Ranker.RankedTopOrder` | lib/engines/spec-matcher.ts:158-171 | the result is ordered by non-increasing percentage and is drawn, without repetition, from the catalog's scores |
| `Ranker.RankedTopHead` | lib/engines/spec-matcher.ts:158-171 | the first entry is the score of the first catalog entry with the highest percentage |
| `Ranker.FindTopMatches` | lib/engines/spec-matcher.ts:158-171 | scoring into an array, sorting it in place and slicing computes the ranking cut after n |
| `Ranker.GetBestMatch` | lib/engines/spec-matcher.ts:176-182 | nothing exactly when the catalog is empty; otherwise the score of the first catalog entry with the highest percentage |
| `TechnicalAgent.MatchesFor` | lib/agents/technical-agent.ts:14-32 | one record per product |
| `TechnicalAgent.MatchesForAt` | lib/agents/technical-agent.ts:17-29 | record i belongs to product i |
| `TechnicalAgent.TopMatchesForSpec` | lib/agents/technical-agent.ts:19-28 | a record names its product, keeps `min(3, catalog size)` candidates, and selects the first candidate's SKU, or "" for an empty catalog |
| `TechnicalAgent.SelectedSkuIsBest` | lib/agents/technical-agent.ts:19-22 | the selected SKU is that of the first catalog entry with the highest percentage |
| `TechnicalAgent.FindMatches` | lib/agents/technical-agent.ts:14-32 | the loop pushing one record per product computes `MatchesFor` |
| `TechnicalAgent.EvaluateRfp` | lib/agents/technical-agent.ts:64-66 | the evaluation is `findMatches` |
| `TechnicalAgent.RecommendationTiers` | lib/agents/technical-agent.ts:45-53 | the verdict is the no-match text exactly for no candidates; it opens with "Excellent" exactly from 90 %, with "Good" exactly from 70 % to 89 %, and with "Partial" exactly below 70 % |
| `TechnicalAgent.RecommendationAgreesWithQuality` | lib/agents/technical-agent.ts:47-53 | the "Excellent" and "Good" verdicts coincide with the interface bands of those names; "Partial" covers "Fair" and "Poor" |
| `TechnicalAgent.AnalyzeMatch` | lib/agents/technical-agent.ts:37-59 | returns the top three candidates and the verdict on them |
| `OemCatalog.CatalogSkus` | lib/data/oem-catalog.ts:7-152 | the catalog has nine entries with the listed SKUs, in order |
| `OemCatalog.CatalogSkusDistinct` | lib/data/oem-catalog.ts:7-152 | no SKU occurs twice in the catalog |
| `OemCatalog.ProductsByCategory` | lib/data/oem-catalog.ts:157-159 | never more entries than the catalog |
| `OemCatalog.ProductsByCategorySpec` | lib/data/oem-catalog.ts:157-159 | exactly the entries of that category, each as often as in the catalog, in catalog order |
| `OemCatalog.ProductBySku` | lib/data/oem-catalog.ts:164-166 | a result is a catalog entry with that SKU |
| `OemCatalog.ProductBySkuSpec` | lib/data/oem-catalog.ts:164-166 | absent exactly when no entry has the SKU; otherwise the first entry that has it |
| `OemCatalog.ProductBySkuFindsEntry` | lib/data/oem-catalog.ts:164-166 | in a catalog without repeated SKUs, every entry is found by its own SKU |
| `OemCatalog.SearchProducts` | lib/data/oem-catalog.ts:171-177 | never more entries than the catalog |
| `OemCatalog.SearchProductsSpec` | lib/data/oem-catalog.ts:171-177 | exactly the entries whose lower-cased name or SKU contains the lower-cased query, each as often as in the catalog, in catalog order |
| `OemCatalog.SearchEmptyQuery` | lib/data/oem-catalog.ts:171-177 | the empty query returns the whole catalog |
| `OemCatalog.SearchIgnoresQueryCase` | lib/data/oem-catalog.ts:172 | a query and its lower-case form find the same entries |
| `PricingTables.LookupOrSpec` | lib/data/pricing-tables.ts:80-96 | `table[key] \|\| fallback` over positive values is the listed value for a listed key and the fallback otherwise |
| `PricingTables.UnitPricesPositive` | lib/data/pricing-tables.ts:8-27 | every unit price is positive |
| `PricingTables.TestPricesPositive` | lib/data/pricing-tables.ts:32-65 | every test price is positive |
| `PricingTables.QuantitiesPositive` | lib/data/pricing-tables.ts:70-75 | every default quantity is positive |
| `PricingTables.UnitPricesCoverCatalog` | lib/data/pricing-tables.ts:8-27 | the priced SKUs are exactly the catalog's SKUs |
| `PricingTables.UnitPriceSpec` | lib/data/pricing-tables.ts:80-82 | a listed SKU costs its positive table price and any other string costs 0 |
| `PricingTables.TestingCostSpec` | lib/data/pricing-tables.ts:87-89 | a listed test costs its positive table price and any other name costs 0 |
| `PricingTables.TestNamesAreCaseSensitive` | lib/data/pricing-tables.ts:87-89 | "high voltage test" is unpriced: names are exact keys |
| `PricingTables.DefaultQuantitySpec` | lib/data/pricing-tables.ts:94-96 | a listed category gets its table quantity and any other gets 1; never below 1 |
| `PricingTables.CategoryQuantities` | lib/data/pricing-tables.ts:70-75 | the four categories get 1000, 2, 3 and 5 |
| `PricingTables.MaterialCostSpec` | lib/data/pricing-tables.ts:101-104 | the material cost is price times quantity; an unknown SKU costs 0; a non-negative quantity costs a non-negative amount |
| `PricingTables.TestingTotalSpec` | lib/data/pricing-tables.ts:109-111 | the testing total is 0 for no tests, never negative, additive over concatenation, and independent of test order |
| `PricingTables.UnknownTestAddsNothing` | lib/data/pricing-tables.ts:109-111 | an unpriced test adds nothing to the total |
| `PricingAgent.TestingCostsFor` | lib/agents/pricing-agent.ts:44-47 | one cost entry per test |
| `PricingAgent.TestingCostsTotal` | lib/agents/pricing-agent.ts:44-52 | the sum of a line's cost entries is `calculateTestingCost` of the tests |
| `PricingAgent.PriceLine` | lib/agents/pricing-agent.ts:26-66 | a line carries the match's selected SKU |
| `PricingAgent.PriceLineFound` | lib/agents/pricing-agent.ts:26-32 | a match gets a line exactly when its SKU is in the catalog |
| `PricingAgent.PriceLineSpec` | lib/agents/pricing-agent.ts:34-66 | a line holds the SKU, the catalog entry's name, the table price, the category's default quantity, one cost per test in order, the testing total, material = price x quantity, and total = material + testing |
| `PricingAgent.PricingFor` | lib/agents/pricing-agent.ts:19-70 | never more lines than matches |
| `PricingAgent.PricingForSnoc` | lib/agents/pricing-agent.ts:25-67 | one more match adds its line at the end, or nothing when it has none |
| `PricingAgent.CalculatePricing` | lib/agents/pricing-agent.ts:19-70 | the loop that skips unknown SKUs and pushes one line for every other match computes `PricingFor` |
| `PricingAgent.PricingForOrder` | lib/agents/pricing-agent.ts:25-67 | lines follow the order of the matches, at most one per match (their SKUs form a subsequence of the selected SKUs) |
| `PricingAgent.PriceLinePriced` | lib/agents/pricing-agent.ts:34-66 | a line is consistent, costs the full test list, and prices a catalog SKU |
| `PricingAgent.PricingForLines` | lib/agents/pricing-agent.ts:25-67 | every line of the result is consistent, costs the full test list, and prices a catalog SKU |
| `PricingAgent.PricingForKeepsResolvable` | lib/agents/pricing-agent.ts:25-67 | when every selected SKU is in the catalog, every match gets a line |
| `PricingAgent.UnresolvableMatchIsSkipped` | lib/agents/pricing-agent.ts:27-32 | a match whose SKU is not in the catalog (such as "") adds no line |
| `PricingAgent.TotalBidValueSpec` | lib/agents/pricing-agent.ts:75-77 | the bid of no lines is 0, and bids of concatenated lists add up |
| `PricingAgent.GeneratePricingSummary` | lib/agents/pricing-agent.ts:82-116 | one breakdown row per line |
| `PricingAgent.PricingSummarySpec` | lib/agents/pricing-agent.ts:82-116 | breakdown row i mirrors line i; the bid value is material plus testing, and equals `calculateTotalBidValue` when every line is consistent |
| `PricingAgent.SummaryAgreesWithBidValue` | lib/agents/pricing-agent.ts:108 | for `calculatePricing`'s own lines, the summary's bid value equals `calculateTotalBidValue` |
| `PricingAgent.GeneratePricing` | lib/agents/pricing-agent.ts:121-138 | returns the lines of `calculatePricing` and their bid value |
| `RfpDiscovery.MentionsAnySpec` | lib/services/rfp-discovery-service.ts:146-148 | `some` holds exactly when some category, lower-cased, occurs in the product |
| `RfpDiscovery.RelevantCount` | lib/services/rfp-discovery-service.ts:145-149 | never more than the number of products |
| `RfpDiscovery.RelevantCountSpec` | lib/services/rfp-discovery-service.ts:145-149 | all products relevant gives the full count; none relevant gives 0 |
| `RfpDiscovery.CalculateRelevanceScore` | lib/services/rfp-discovery-service.ts:141-161 | no score (NaN) exactly for an empty product list; otherwise the rounded sum of 50, 40 times the relevant share, and 10/5/0 timeline points |
| `RfpDiscovery.ShareBounds` | lib/services/rfp-discovery-service.ts:150 | the relevant share lies in 0..1 |
| `RfpDiscovery.RoundMonotone` | lib/services/rfp-discovery-service.ts:160 | `Math.round` never decreases |
| `RfpDiscovery.RelevanceScoreBounds` | lib/services/rfp-discovery-service.ts:141-161 | every score lies in 50..100, so the cap at 100 never changes it |
| `RfpDiscovery.RelevanceScoreExtremes` | lib/services/rfp-discovery-service.ts:141-161 | all relevant and due in 14+ days scores 100; none relevant and due within 7 days scores 50 |
| `RfpDiscovery.RelevanceScoreMonotone` | lib/services/rfp-discovery-service.ts:141-161 | more relevant products or more days never lower the score |
| `RfpDiscovery.FilterRfps` | lib/services/rfp-discovery-service.ts:166-186 | never more tenders than given |
| `RfpDiscovery.FilterRfpsSpec` | lib/services/rfp-discovery-service.ts:166-186 | exactly the tenders meeting every truthy criterion are kept, each as often as given, in order: due within the non-zero maximum, scored at least the non-zero minimum, from a listed source |
| `RfpDiscovery.ZeroBoundsKeepAll` | lib/services/rfp-discovery-service.ts:175-180 | bounds of 0, or absent criteria, keep every tender |
| `RfpDiscovery.EmptySourcesRejectAll` | lib/services/rfp-discovery-service.ts:181-183 | a present but empty sources list rejects every tender |
| `RfpDiscovery.QualifyRfps` | lib/services/rfp-discovery-service.ts:223-228 | one tender out per tender in |
| `RfpDiscovery.QualifyRfpsSpec` | lib/services/rfp-discovery-service.ts:223-228 | only the status changes; a tender ends qualified exactly when it scored 75+ or was qualified already; below 75 the status is kept; qualifying twice is qualifying once |
| `Utils.Rank` | lib/utils.ts:40-53 | the bands are ranked 0..3 |
| `Utils.GetMatchQualitySpec` | lib/utils.ts:40-53 | each label is returned exactly on its band (Excellent from 90, Good 70-90, Fair 50-70, Poor below 50), with its colour |
| `Utils.GetMatchQualityMonotone` | lib/utils.ts:44-52 | a higher percentage never gets a lower band |
| `Orchestrator.ValidateRfpInput` | lib/agents/orchestrator.ts:222-237 | the errors are the empty-text error for a blank text, then the too-short error below 100 UTF-16 code units; valid exactly when there are none |
| `Orchestrator.EmptyTextErrors` | lib/agents/orchestrator.ts:225-231 | the empty text draws both errors, the empty-text error first |
| `Orchestrator.LongBlankTextErrors` | lib/agents/orchestrator.ts:225-231 | a whitespace-only text of 100+ characters draws only the empty-text error |
| `Orchestrator.ValidTexts` | lib/agents/orchestrator.ts:222-237 | a text is valid exactly when it has a non-whitespace character and is at least 100 UTF-16 code units long |
| `Orchestrator.ValidBasicPlaneTexts` | lib/agents/orchestrator.ts:222-237 | for text in the Basic Multilingual Plane, that is at least 100 characters |
| `Orchestrator.SurrogatePairsCountTwice` | lib/agents/orchestrator.ts:229 | fifty emoji, each a surrogate pair, are 100 code units long and make a valid text |

## Left out

- Asynchrony: the `async`/`Promise` wrappers of the agents are dropped. The agents' results are modelled as plain return values.
- `console.error` in `calculatePricing` is not modelled. It is output only, and the skip it reports is modelled.
- The random tender generator `generateDiscoveredRFPs` is not modelled, nor the simulated delay of `scanRFPSources`. `getRFPsWithin90Days`, `getHighPriorityRFPs` and `getActionableRFPs` are left out too, because they only feed the generator's random output through the modelled `filterRFPs` and `qualifyRFPs`.
- Floating point: values, shares and percentages are exact rationals. Where a double lands just below a half (for example 23/40 x 100), `Math.round` in the source can round down where the model rounds up.
- `toLowerCase`, `trim` and `\s` cover ASCII only. String `length` is modelled in UTF-16 code units. Unicode case mapping and Unicode whitespace are not modelled.
- Table lookups use the listed keys only. Keys inherited from `Object.prototype` (such as `"constructor"`) are not modelled.
- The LLM extraction, the sales agent, the rest of the orchestrator (the workflow and parallel execution), the UI, and the PDF and Excel export are not part of this model.
- The request validation done by the schema library is not part of this model. Records are assumed to be well-formed.
- `TechnicalAgent.FindMatches`, `TechnicalAgent.AnalyzeMatch`, `PricingAgent.CalculatePricing` and `OemCatalog.ProductBySku` take the catalog as an argument instead of reading the module constant. This has the same behaviour when given `OemCatalog.Catalog`.
- `Utils.GetMatchQuality`: the `label` field is named `name`, because `label` is a reserved word in Dafny.
