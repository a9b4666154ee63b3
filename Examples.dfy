/** The handler's behaviour on the seed catalog for a few concrete invocations. */
module SeedExamples {
  import opened Wrappers
  import opened ProductModel
  import opened Catalog
  import opened Search
  import opened Handler

  /** A search with no filters returns the three seed records in seed order. */
  lemma SearchWithoutFiltersReturnsAll(parse: string -> Option<real>)
    ensures Handle(Event(Some("agent"), Some(SearchProductsPath), Some([])), parse)
            == Envelope(Search([
                 Summary("prod-001", "Premium Coffee Maker", 199.99, true),
                 Summary("prod-002", "Smart Blender", 149.99, true),
                 Summary("prod-003", "Stainless Steel Toaster", 79.99, false)], 3))
  {
    var event := Event(Some("agent"), Some(SearchProductsPath), Some([]));
    assert Flattened([]) == Success(map[]);
    HandleSearchWithoutBounds(event, parse);
    assert Get(map[], "query") == None;
    NoFiltersSelectsAll(ProductDatabase);
    assert Summaries(ProductDatabase) == [
      Summary("prod-001", "Premium Coffee Maker", 199.99, true),
      Summary("prod-002", "Smart Blender", 149.99, true),
      Summary("prod-003", "Stainless Steel Toaster", 79.99, false)];
  }

  /** A minimum price of 200 excludes every seed record. */
  lemma SearchAboveAllPricesIsEmpty(parse: string -> Option<real>)
    requires parse("200") == Some(200.0)
    ensures Handle(Event(None, Some(SearchProductsPath), Some([Param(Some("minPrice"), Some("200"))])), parse)
            == Envelope(Search([], 0))
  {
    var params := map["minPrice" := "200"];
    assert Flattened([Param(Some("minPrice"), Some("200"))]) == Success(params);
    var f := Filters(None, Some(200.0), None);
    assert ProductDatabase[..2][..1] == ProductDatabase[..1];
    assert ProductDatabase[..3][..2] == ProductDatabase[..2];
    assert Selected(ProductDatabase[..1], f) == [];
    assert Selected(ProductDatabase[..2], f) == [];
    assert ProductDatabase[..3] == ProductDatabase;
    assert Selected(ProductDatabase, f) == [];
    assert ParseBound(params, "minPrice", parse) == Success(Some(200.0));
    assert ParseBound(params, "maxPrice", parse) == Success(None);
    HandleSearchWithBounds(Event(None, Some(SearchProductsPath), Some([Param(Some("minPrice"), Some("200"))])),
                           parse, Some(200.0), None);
    assert Get(params, "query") == None;
    assert Summaries(Selected(ProductDatabase, f)) == [];
  }

  /** Looking up "prod-002" returns the stored Smart Blender record. */
  lemma LookupSmartBlender(parse: string -> Option<real>)
    ensures Handle(Event(None, Some(GetProductDetailsPath), Some([Param(Some("productId"), Some("prod-002"))])), parse)
            == Envelope(ProductRecord(ProductDatabase[1]))
    ensures ProductDatabase[1].name == "Smart Blender"
  {
  }

  /** An unknown path is reported with the path it named. */
  lemma DeleteProductIsUnsupported(parse: string -> Option<real>)
    ensures Handle(Event(None, Some("/deleteProduct"), Some([])), parse)
            == Envelope(UnsupportedPath("Unsupported API path", "/deleteProduct"))
  {
  }

  /** A non-numeric minimum price ends in the catch-all error envelope. */
  lemma NonNumericMinPriceIsError(parse: string -> Option<real>)
    requires parse("abc") == None
    ensures Handle(Event(None, Some(SearchProductsPath), Some([Param(Some("minPrice"), Some("abc"))])), parse).response.Failed?
    ensures FaultPrefix <= Handle(Event(None, Some(SearchProductsPath), Some([Param(Some("minPrice"), Some("abc"))])), parse).response.error
  {
  }

  /** When a name is supplied twice the later value is the one used. */
  lemma RepeatedProductIdUsesLast(parse: string -> Option<real>)
    ensures Handle(Event(None, Some(GetProductDetailsPath),
                         Some([Param(Some("productId"), Some("prod-001")), Param(Some("productId"), Some("prod-003"))])), parse)
            == Envelope(ProductRecord(ProductDatabase[2]))
  {
    var ps := [Param(Some("productId"), Some("prod-001")), Param(Some("productId"), Some("prod-003"))];
    assert ps[..1] == [ps[0]];
    assert [ps[0]][..0] == [];
    assert Flattened(ps[..1]) == Success(map["productId" := "prod-001"]);
    assert map["productId" := "prod-001"]["productId" := "prod-003"] == map["productId" := "prod-003"];
    assert Flattened(ps) == Success(map["productId" := "prod-003"]);
    HandleProductFound(Event(None, Some(GetProductDetailsPath), Some(ps)), parse, 2);
  }
}
