/** The fixed product catalog and its point lookup. */
module Catalog {
  import opened Wrappers
  import opened ProductModel

  /** The seed catalog, in the insertion order of the source's dictionary. */
  const ProductDatabase: seq<Product> := [
    Product("prod-001", "Premium Coffee Maker",
      "High-end coffee maker with temperature control and built-in grinder",
      199.99, true, ["Temperature control", "Built-in grinder", "Timer", "12-cup capacity"]),
    Product("prod-002", "Smart Blender",
      "Programmable blender with multiple speed settings and preset programs",
      149.99, true, ["5 speed settings", "Ice crushing", "Smoothie preset", "Soup preset"]),
    Product("prod-003", "Stainless Steel Toaster",
      "4-slice toaster with wide slots and bagel setting",
      79.99, false, ["4 slots", "Bagel setting", "Defrost function", "High-lift lever"])
  ]

  /** The seed catalog is keyed by identifier. */
  lemma ProductDatabaseUniqueIds()
    ensures UniqueIds(ProductDatabase)
  {
  }

  /** The dictionary's `get`: the record stored under `id`, if any. An absent id (`None`) matches nothing. */
  function Lookup(catalog: seq<Product>, id: Option<string>): (r: Option<Product>)
    ensures r.Some? ==> r.value in catalog && id == Some(r.value.productId)
    ensures r.None? <==> forall k :: 0 <= k < |catalog| ==> id != Some(catalog[k].productId)
  {
    if catalog == [] then None
    else if id == Some(catalog[0].productId) then Some(catalog[0])
    else Lookup(catalog[1..], id)
  }

  /** `get_product_details`: the stored record, or the "not found" object carrying the requested id. */
  function GetProductDetails(catalog: seq<Product>, id: Option<string>): (r: Response)
    ensures r.ProductRecord? || r == NotFound(NotFoundMessage, id)
    ensures r.ProductRecord? ==> r.record in catalog && id == Some(r.record.productId)
    ensures r.NotFound? <==> forall k :: 0 <= k < |catalog| ==> id != Some(catalog[k].productId)
  {
    match Lookup(catalog, id)
    case Some(p) => ProductRecord(p)
    case None => NotFound(NotFoundMessage, id)
  }

  /** For an id present in a catalog keyed by id, the lookup returns the stored record unchanged. */
  lemma GetProductDetailsFound(catalog: seq<Product>, k: int)
    requires UniqueIds(catalog)
    requires 0 <= k < |catalog|
    ensures GetProductDetails(catalog, Some(catalog[k].productId)) == ProductRecord(catalog[k])
  {
  }
}
