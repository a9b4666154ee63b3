/** The handler's values: product records, search summaries and the response envelope. */
module ProductModel {
  import opened Wrappers

  /** A catalog entry. Prices are decimal amounts, modelled exactly as reals. */
  datatype Product = Product(
    productId: string,
    name: string,
    description: string,
    price: real,
    inStock: bool,
    features: seq<string>)

  /** The reduced record a search returns for each match. */
  datatype Summary = Summary(productId: string, name: string, price: real, inStock: bool)

  /** Every object the handler can place under the `response` key. */
  datatype Response =
    | ProductRecord(record: Product)
    | NotFound(error: string, productId: Option<string>)
    | Search(results: seq<Summary>, totalResults: int)
    | UnsupportedPath(error: string, apiPath: string)
    | Failed(error: string)

  /** The handler's whole output: `{response: ...}`. */
  datatype Envelope = Envelope(response: Response)

  const NotFoundMessage: string := "Product not found"
  const UnsupportedPathMessage: string := "Unsupported API path"
  const FaultPrefix: string := "Error processing request: "

  /** No two records of the catalog share an identifier (the catalog is keyed by id). */
  predicate UniqueIds(catalog: seq<Product>) {
    forall i, j :: 0 <= i < j < |catalog| ==> catalog[i].productId != catalog[j].productId
  }
}
