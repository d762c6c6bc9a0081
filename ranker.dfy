/**
 * The catalog ranking of lib/engines/spec-matcher.ts: every catalog entry
 * is scored against one product, the scores are sorted by descending
 * percentage with a stable sort (entries with equal percentages keep their
 * catalog order), and the first N are kept (findTopMatches); the best entry
 * is the head of a one-element ranking (getBestMatch).
 */
module Ranker {
  import opened Wrappers
  import opened Seqs
  import opened Schemas
  import opened SpecMatcher

  // ------------------------------------------------------------------ scoring

  /** `oemCatalog.map((sku) => calculateSpecMatch(rfpProduct, sku))`. */
  function Scores(rfpProduct: ProductSpec, catalog: seq<OemSku>): (r: seq<SpecMatchResult>)
    ensures |r| == |catalog|
  {
    Map(catalog, ScoreFor(rfpProduct))
  }

  /** The score of a catalog entry against the product, as a function. */
  function ScoreFor(rfpProduct: ProductSpec): OemSku -> SpecMatchResult {
    (oemSku: OemSku) => SpecMatch(rfpProduct, oemSku)
  }

  /** Entry `i` of the scores is the score of catalog entry `i`. */
  lemma ScoresAt(rfpProduct: ProductSpec, catalog: seq<OemSku>, i: nat)
    requires i < |catalog|
    ensures Scores(rfpProduct, catalog)[i] == SpecMatch(rfpProduct, catalog[i])
  {
  }

  // ------------------------------------------------------------------ sorting

  function Pct(m: SpecMatchResult): int {
    m.specMatchPercentage
  }

  /** Percentages never increase from front to back. */
  ghost predicate SortedByScore(s: seq<SpecMatchResult>) {
    forall i, j :: 0 <= i < j < |s| ==> Pct(s[i]) >= Pct(s[j])
  }

  /**
   * `x` placed right after the last element whose percentage is at least
   * its own: one step of a stable sort by descending percentage.
   */
  function Insert(s: seq<SpecMatchResult>, x: SpecMatchResult): (r: seq<SpecMatchResult>)
    ensures |r| == |s| + 1
  {
    if s == [] then [x]
    else if Pct(s[|s| - 1]) >= Pct(x) then s + [x]
    else Insert(s[..|s| - 1], x) + [s[|s| - 1]]
  }

  /**
   * `allMatches.sort((a, b) => b.specMatchPercentage - a.specMatchPercentage)`:
   * JavaScript's sort is stable, so its result is this insertion sort's.
   */
  function SortByScore(s: seq<SpecMatchResult>): (r: seq<SpecMatchResult>)
    ensures |r| == |s|
  {
    if s == [] then [] else Insert(SortByScore(s[..|s| - 1]), s[|s| - 1])
  }

  lemma {:induction false} InsertPermutes(s: seq<SpecMatchResult>, x: SpecMatchResult)
    ensures multiset(Insert(s, x)) == multiset(s) + multiset{x}
    decreases |s|
  {
    if s != [] && Pct(s[|s| - 1]) < Pct(x) {
      var init, last := s[..|s| - 1], s[|s| - 1];
      InsertPermutes(init, x);
      assert s == init + [last];
    }
  }

  lemma {:induction false} InsertSorted(s: seq<SpecMatchResult>, x: SpecMatchResult)
    requires SortedByScore(s)
    ensures SortedByScore(Insert(s, x))
    decreases |s|
  {
    if s != [] && Pct(s[|s| - 1]) < Pct(x) {
      var init, last := s[..|s| - 1], s[|s| - 1];
      InsertSorted(init, x);
      InsertPermutes(init, x);
      var front := Insert(init, x);
      forall i | 0 <= i < |front|
        ensures Pct(front[i]) >= Pct(last)
      {
        assert front[i] in multiset(init) + multiset{x};
        if front[i] != x {
          var k :| 0 <= k < |init| && init[k] == front[i];
          assert init[k] == s[k];
        }
      }
    }
  }

  lemma {:induction false} SortPermutes(s: seq<SpecMatchResult>)
    ensures multiset(SortByScore(s)) == multiset(s)
    decreases |s|
  {
    if s != [] {
      var init, last := s[..|s| - 1], s[|s| - 1];
      SortPermutes(init);
      InsertPermutes(SortByScore(init), last);
      assert s == init + [last];
    }
  }

  lemma {:induction false} SortOrders(s: seq<SpecMatchResult>)
    ensures SortedByScore(SortByScore(s))
    decreases |s|
  {
    if s != [] {
      var init := s[..|s| - 1];
      SortOrders(init);
      InsertSorted(SortByScore(init), s[|s| - 1]);
    }
  }

  /** The sort yields a permutation of its input, ordered by descending percentage. */
  lemma SortByScoreSpec(s: seq<SpecMatchResult>)
    ensures multiset(SortByScore(s)) == multiset(s)
    ensures SortedByScore(SortByScore(s))
  {
    SortPermutes(s);
    SortOrders(s);
  }

  /** The elements of `s` whose percentage is `v`, in their order. */
  function WithScore(s: seq<SpecMatchResult>, v: int): seq<SpecMatchResult> {
    if s == [] then []
    else WithScore(s[..|s| - 1], v) + if Pct(s[|s| - 1]) == v then [s[|s| - 1]] else []
  }

  lemma {:induction false} WithScoreAppend(a: seq<SpecMatchResult>, b: seq<SpecMatchResult>, v: int)
    ensures WithScore(a + b, v) == WithScore(a, v) + WithScore(b, v)
    decreases |b|
  {
    if b == [] {
      assert a + b == a;
    } else {
      var init := b[..|b| - 1];
      WithScoreAppend(a, init, v);
      assert (a + b)[..|a + b| - 1] == a + init;
    }
  }

  lemma {:induction false} InsertStable(s: seq<SpecMatchResult>, x: SpecMatchResult, v: int)
    ensures WithScore(Insert(s, x), v) == WithScore(s, v) + if Pct(x) == v then [x] else []
    decreases |s|
  {
    if s == [] {
    } else if Pct(s[|s| - 1]) >= Pct(x) {
      WithScoreAppend(s, [x], v);
    } else {
      var init, last := s[..|s| - 1], s[|s| - 1];
      InsertStable(init, x, v);
      WithScoreAppend(Insert(init, x), [last], v);
    }
  }

  /** Stability: for every percentage, the entries with that percentage keep their relative order. */
  lemma {:induction false} SortIsStable(s: seq<SpecMatchResult>, v: int)
    ensures WithScore(SortByScore(s), v) == WithScore(s, v)
    decreases |s|
  {
    if s != [] {
      var init, last := s[..|s| - 1], s[|s| - 1];
      SortIsStable(init, v);
      InsertStable(SortByScore(init), last, v);
    }
  }

  /** Insert places `x` at `j` when everything from `j` on scores below it and the element before does not. */
  lemma {:induction false} InsertAt(s: seq<SpecMatchResult>, x: SpecMatchResult, j: nat)
    requires j <= |s|
    requires forall k :: j <= k < |s| ==> Pct(s[k]) < Pct(x)
    requires j == 0 || Pct(s[j - 1]) >= Pct(x)
    ensures Insert(s, x) == s[..j] + [x] + s[j..]
    decreases |s|
  {
    if j < |s| {
      var init, last := s[..|s| - 1], s[|s| - 1];
      InsertAt(init, x, j);
      assert init[..j] == s[..j];
      assert init[j..] + [last] == s[j..];
    } else if s != [] {
      assert s[..j] == s;
    }
  }

  /** The head of the sorted scores: a highest percentage, taken from the first entry that has it. */
  lemma {:induction false} InsertHead(t: seq<SpecMatchResult>, x: SpecMatchResult)
    requires t != [] && SortedByScore(t)
    ensures Insert(t, x)[0] == if Pct(x) > Pct(t[0]) then x else t[0]
    decreases |t|
  {
    var init, last := t[..|t| - 1], t[|t| - 1];
    if Pct(last) < Pct(x) && init != [] {
      InsertHead(init, x);
    }
  }

  /** `s[k]` has the highest percentage in `s`, and no entry before it has that percentage. */
  ghost predicate IsFirstMaximum(s: seq<SpecMatchResult>, k: int) {
    && 0 <= k < |s|
    && (forall j :: 0 <= j < |s| ==> Pct(s[j]) <= Pct(s[k]))
    && (forall j :: 0 <= j < k ==> Pct(s[j]) < Pct(s[k]))
  }

  lemma FirstMaximumExtends(init: seq<SpecMatchResult>, last: SpecMatchResult, k: int)
    requires IsFirstMaximum(init, k)
    ensures Pct(last) <= Pct(init[k]) ==> IsFirstMaximum(init + [last], k)
    ensures Pct(last) > Pct(init[k]) ==> IsFirstMaximum(init + [last], |init|)
  {
    var s := init + [last];
    assert forall j :: 0 <= j < |init| ==> s[j] == init[j];
  }

  /** The sorted head is a highest score, and no earlier entry has that score. */
  lemma {:induction false} SortedHeadIsFirstMaximum(s: seq<SpecMatchResult>)
    requires s != []
    ensures exists k :: IsFirstMaximum(s, k) && SortByScore(s)[0] == s[k]
    decreases |s|
  {
    var init, last := s[..|s| - 1], s[|s| - 1];
    assert s == init + [last];
    if init == [] {
      assert IsFirstMaximum(s, 0);
    } else {
      SortedHeadIsFirstMaximum(init);
      var k :| IsFirstMaximum(init, k) && SortByScore(init)[0] == init[k];
      SortByScoreSpec(init);
      InsertHead(SortByScore(init), last);
      FirstMaximumExtends(init, last, k);
      if Pct(last) > Pct(init[k]) {
        assert SortByScore(s)[0] == s[|init|];
      } else {
        assert SortByScore(s)[0] == s[k];
      }
    }
  }

  // ------------------------------------------------------------------- slicing

  /** The end index `slice(0, topN)` uses: negative counts from the back, clamped to the length. */
  function SliceEnd(length: nat, topN: int): (e: nat)
    ensures e <= length
    ensures 0 <= topN <= length ==> e == topN
    ensures topN > length ==> e == length
    ensures topN < 0 ==> e == if length + topN < 0 then 0 else length + topN
  {
    if topN < 0 then (if length + topN < 0 then 0 else length + topN)
    else if topN > length then length
    else topN
  }

  /** What findTopMatches returns: the stable ranking of the catalog's scores, cut after `topN`. */
  function RankedTop(rfpProduct: ProductSpec, catalog: seq<OemSku>, topN: int): seq<SpecMatchResult> {
    var ranked := SortByScore(Scores(rfpProduct, catalog));
    ranked[..SliceEnd(|ranked|, topN)]
  }

  /** findTopMatches keeps `min(topN, |catalog|)` entries for a non-negative `topN`, none for an empty catalog. */
  lemma RankedTopLength(rfpProduct: ProductSpec, catalog: seq<OemSku>, topN: int)
    ensures 0 <= topN ==> |RankedTop(rfpProduct, catalog, topN)| == if topN < |catalog| then topN else |catalog|
    ensures catalog == [] ==> RankedTop(rfpProduct, catalog, topN) == []
  {
  }

  /** findTopMatches's entries are ordered by descending percentage and drawn without repetition from the catalog's scores. */
  lemma RankedTopOrder(rfpProduct: ProductSpec, catalog: seq<OemSku>, topN: int)
    ensures SortedByScore(RankedTop(rfpProduct, catalog, topN))
    ensures multiset(RankedTop(rfpProduct, catalog, topN)) <= multiset(Scores(rfpProduct, catalog))
  {
    var scores := Scores(rfpProduct, catalog);
    SortByScoreSpec(scores);
    SortedPrefix(scores, SliceEnd(|SortByScore(scores)|, topN));
  }

  /** A prefix of the ranking is ordered and draws its entries from the ranked scores. */
  lemma SortedPrefix(s: seq<SpecMatchResult>, e: nat)
    requires e <= |SortByScore(s)|
    ensures SortedByScore(SortByScore(s)[..e])
    ensures multiset(SortByScore(s)[..e]) <= multiset(s)
  {
    var ranked := SortByScore(s);
    SortByScoreSpec(s);
    PrefixSorted(ranked, e);
    PrefixMultiset(ranked, e);
  }

  /** A prefix of an ordered sequence is ordered. */
  lemma PrefixSorted(s: seq<SpecMatchResult>, e: nat)
    requires e <= |s| && SortedByScore(s)
    ensures SortedByScore(s[..e])
  {
  }

  /** findTopMatches's first entry is the score of the first catalog entry with the highest percentage. */
  lemma RankedTopHead(rfpProduct: ProductSpec, catalog: seq<OemSku>, topN: int)
    requires RankedTop(rfpProduct, catalog, topN) != []
    ensures exists k :: (IsFirstMaximum(Scores(rfpProduct, catalog), k)
                         && RankedTop(rfpProduct, catalog, topN)[0] == SpecMatch(rfpProduct, catalog[k]))
  {
    var scores := Scores(rfpProduct, catalog);
    SortedHeadIsFirstMaximum(scores);
    var k :| IsFirstMaximum(scores, k) && SortByScore(scores)[0] == scores[k];
    ScoresAt(rfpProduct, catalog, k);
  }

  /**
   * The in-place sort `allMatches.sort(...)` performs: an insertion sort
   * that shifts only entries with a strictly lower percentage, so equal
   * percentages keep their order.
   */
  method SortInPlace(a: array<SpecMatchResult>)
    modifies a
    ensures a[..] == SortByScore(old(a[..]))
  {
    ghost var input := a[..];
    for i := 0 to a.Length
      invariant a[..i] == SortByScore(input[..i])
      invariant a[i..] == input[i..]
    {
      assert a[i] == input[i];
      InsertionStep(a, i);
      assert input[..i + 1][..i] == input[..i];
    }
    assert input[..a.Length] == input;
  }

  /** One pass of the insertion sort: `a[i]` moves into the sorted prefix `a[..i]`. */
  method InsertionStep(a: array<SpecMatchResult>, i: nat)
    requires i < a.Length
    modifies a
    ensures a[..i + 1] == Insert(old(a[..i]), old(a[i]))
    ensures a[i + 1..] == old(a[i + 1..])
  {
    ghost var sorted := a[..i];
    ghost var rest := a[i + 1..];
    var x := a[i];
    var j := i;
    while j > 0 && Pct(a[j - 1]) < Pct(x)
      invariant 0 <= j <= i
      invariant a[..j] == sorted[..j]
      invariant a[j + 1..i + 1] == sorted[j..]
      invariant forall k :: j <= k < i ==> Pct(sorted[k]) < Pct(x)
      invariant a[i + 1..] == rest
      decreases j
    {
      a[j] := a[j - 1];
      j := j - 1;
    }
    a[j] := x;
    InsertAt(sorted, x, j);
    assert a[..i + 1] == sorted[..j] + [x] + sorted[j..];
  }

  /** The array `oemCatalog.map(...)` builds: one score per catalog entry, in catalog order. */
  method ScoreAll(rfpProduct: ProductSpec, catalog: seq<OemSku>) returns (a: array<SpecMatchResult>)
    ensures fresh(a)
    ensures a[..] == Scores(rfpProduct, catalog)
  {
    a := new SpecMatchResult[|catalog|];
    for i := 0 to |catalog|
      invariant a[..i] == Scores(rfpProduct, catalog[..i])
    {
      var m := CalculateSpecMatch(rfpProduct, catalog[i]);
      a[i] := m;
      MapSnoc(catalog, ScoreFor(rfpProduct), i);
      assert a[..i + 1] == a[..i] + [m];
    }
    assert catalog[..|catalog|] == catalog;
    assert a[..] == a[..|catalog|];
  }

  /** findTopMatches: scores the whole catalog, sorts the scores in place, keeps the first `topN`. */
  method FindTopMatches(rfpProduct: ProductSpec, catalog: seq<OemSku>, topN: int)
    returns (r: seq<SpecMatchResult>)
    ensures r == RankedTop(rfpProduct, catalog, topN)
  {
    var allMatches := ScoreAll(rfpProduct, catalog);
    SortInPlace(allMatches);
    r := allMatches[..SliceEnd(allMatches.Length, topN)];
  }

  /**
   * getBestMatch: nothing exactly when the catalog is empty; otherwise the
   * score of the first catalog entry with the highest percentage.
   */
  method GetBestMatch(rfpProduct: ProductSpec, catalog: seq<OemSku>)
    returns (r: Option<SpecMatchResult>)
    ensures r.None? <==> catalog == []
    ensures r.Some? ==> exists k :: (IsFirstMaximum(Scores(rfpProduct, catalog), k)
                                     && r.value == SpecMatch(rfpProduct, catalog[k]))
  {
    var matches := FindTopMatches(rfpProduct, catalog, 1);
    r := if |matches| > 0 then Some(matches[0]) else None;
    RankedTopLength(rfpProduct, catalog, 1);
    if matches != [] {
      RankedTopHead(rfpProduct, catalog, 1);
    }
  }
}
