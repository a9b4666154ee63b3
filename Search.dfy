/** `search_products`: filter the catalog by optional criteria and project each match to a summary. */
module Search {
  import opened Wrappers
  import opened Text
  import opened ProductModel

  /** The three optional filters; `category` is accepted by the source but filters nothing, so it is not here. */
  datatype Filters = Filters(query: Option<string>, minPrice: Option<real>, maxPrice: Option<real>)

  const NoFilters: Filters := Filters(None, None, None)

  /** An absent or empty query imposes nothing; otherwise it must occur, ignoring case, in the name or the description. */
  predicate QueryMatches(p: Product, query: Option<string>) {
    || query.None?
    || query.value == ""
    || Contains(Lower(p.name), Lower(query.value))
    || Contains(Lower(p.description), Lower(query.value))
  }

  /** A record passes when it satisfies every supplied filter; both price bounds are inclusive. */
  predicate Matches(p: Product, f: Filters) {
    && QueryMatches(p, f.query)
    && (f.minPrice.None? || f.minPrice.value <= p.price)
    && (f.maxPrice.None? || p.price <= f.maxPrice.value)
  }

  /** The records of `catalog` that pass `f`, in catalog order. */
  function Selected(catalog: seq<Product>, f: Filters): seq<Product>
    decreases |catalog|
  {
    if catalog == [] then []
    else
      var last := catalog[|catalog| - 1];
      Selected(catalog[..|catalog| - 1], f) + (if Matches(last, f) then [last] else [])
  }

  /** The positions in `catalog` of the records that pass `f`, in increasing order. */
  function MatchingIndices(catalog: seq<Product>, f: Filters): seq<int>
    decreases |catalog|
  {
    if catalog == [] then []
    else
      var n := |catalog| - 1;
      MatchingIndices(catalog[..n], f) + (if Matches(catalog[n], f) then [n] else [])
  }

  /** The four-field summary of a record. */
  function Summarize(p: Product): Summary {
    Summary(p.productId, p.name, p.price, p.inStock)
  }

  /** The summary of each record, position by position. */
  function Summaries(ps: seq<Product>): seq<Summary> {
    seq(|ps|, k requires 0 <= k < |ps| => Summarize(ps[k]))
  }

  /** The loop of `search_products`: walk the catalog in order, skip a record at the first filter it fails,
      append the summary of every other record, and report the list with its length. */
  method SearchProducts(catalog: seq<Product>, query: Option<string>, category: Option<string>,
                        minPrice: Option<real>, maxPrice: Option<real>) returns (r: Response)
    ensures r.Search?
    ensures r.results == Summaries(Selected(catalog, Filters(query, minPrice, maxPrice)))
    ensures r.totalResults == |r.results|
  {
    ghost var f := Filters(query, minPrice, maxPrice);
    var results: seq<Summary> := [];
    for i := 0 to |catalog|
      invariant results == Summaries(Selected(catalog[..i], f))
    {
      assert catalog[..i + 1][..i] == catalog[..i];
      var product := catalog[i];
      if query.Some? && query.value != ""
         && !Contains(Lower(product.name), Lower(query.value))
         && !Contains(Lower(product.description), Lower(query.value)) {
        continue;
      }
      if minPrice.Some? && product.price < minPrice.value {
        continue;
      }
      if maxPrice.Some? && product.price > maxPrice.value {
        continue;
      }
      results := results + [Summarize(product)];
    }
    assert catalog[..|catalog|] == catalog;
    r := Search(results, |results|);
  }

  /** The indices characterise the selection: they increase, each names a record that passes,
      every record that passes is named, and the selection is those records in that order.
      So the results are an ordered subsequence of the catalog that is sound and complete. */
  lemma {:induction false} SelectedAtIndices(catalog: seq<Product>, f: Filters)
    ensures |MatchingIndices(catalog, f)| == |Selected(catalog, f)|
    ensures forall a, b :: 0 <= a < b < |MatchingIndices(catalog, f)| ==>
              MatchingIndices(catalog, f)[a] < MatchingIndices(catalog, f)[b]
    ensures forall a :: 0 <= a < |MatchingIndices(catalog, f)| ==>
              0 <= MatchingIndices(catalog, f)[a] < |catalog|
              && Selected(catalog, f)[a] == catalog[MatchingIndices(catalog, f)[a]]
    ensures forall j :: 0 <= j < |catalog| ==> (Matches(catalog[j], f) <==> j in MatchingIndices(catalog, f))
    decreases |catalog|
  {
    if catalog != [] {
      var n := |catalog| - 1;
      var init := catalog[..n];
      SelectedAtIndices(init, f);
      assert forall j :: 0 <= j < n ==> init[j] == catalog[j];
    }
  }

  /** Soundness: each returned summary is the projection of a catalog record that passes every filter. */
  lemma SearchSound(catalog: seq<Product>, f: Filters, k: int)
    requires 0 <= k < |Summaries(Selected(catalog, f))|
    ensures exists j :: 0 <= j < |catalog| && Matches(catalog[j], f)
                        && Summaries(Selected(catalog, f))[k] == Summarize(catalog[j])
  {
  }

  /** Completeness: the summary of every catalog record that passes every filter is returned. */
  lemma SearchComplete(catalog: seq<Product>, f: Filters, j: int)
    requires 0 <= j < |catalog| && Matches(catalog[j], f)
    ensures Summarize(catalog[j]) in Summaries(Selected(catalog, f))
  {
    SelectedAtIndices(catalog, f);
    var idx := MatchingIndices(catalog, f);
    var a :| 0 <= a < |idx| && idx[a] == j;
    assert Summaries(Selected(catalog, f))[a] == Summarize(catalog[j]);
  }

  /** Exactly once: in a catalog keyed by id no identifier is returned twice, so with completeness
      every passing record appears exactly once. */
  lemma {:induction false} SearchDistinct(catalog: seq<Product>, f: Filters)
    requires UniqueIds(catalog)
    ensures UniqueIds(Selected(catalog, f))
    ensures forall a, b :: 0 <= a < b < |Summaries(Selected(catalog, f))| ==>
              Summaries(Selected(catalog, f))[a].productId != Summaries(Selected(catalog, f))[b].productId
  {
    SelectedAtIndices(catalog, f);
  }

  /** With no filter every record is returned, in catalog order. */
  lemma {:induction false} NoFiltersSelectsAll(catalog: seq<Product>)
    ensures Selected(catalog, NoFilters) == catalog
    decreases |catalog|
  {
    if catalog != [] {
      NoFiltersSelectsAll(catalog[..|catalog| - 1]);
    }
  }

  /** A supplied query is matched as a case-insensitive substring: it passes exactly when its lower-cased
      text occurs at some position of the lower-cased name or the lower-cased description.
      The empty query occurs everywhere, so it passes every record. */
  lemma QueryMatchesIff(p: Product, q: string)
    ensures QueryMatches(p, Some(q)) <==>
              (exists k :: OccursAt(Lower(p.name), Lower(q), k))
              || (exists k :: OccursAt(Lower(p.description), Lower(q), k))
  {
    ContainsIff(Lower(p.name), Lower(q));
    ContainsIff(Lower(p.description), Lower(q));
    if q == "" {
      assert OccursAt(Lower(p.name), Lower(q), 0);
    }
  }
}
