# Product information handler, modelled in Dafny

The repository is one request handler for an agent's action group. It answers two queries against a fixed,
in-memory product catalog of three records: "fetch a product by identifier" and "search products by text and
price". It adapts each invocation to the caller's envelope format. The model covers the following:

- **Catalog** (`Catalog.dfy`): the seed records in insertion order, and the point lookup `get_product_details`.
  A miss is returned as the `{error: "Product not found", productId}` object. It is not a fault.
- **Search** (`Search.dfy`): the `search_products` loop, written as a method with a `for` loop and `continue`.
  The loop is proved equal to a filter-then-project specification (`Selected`, `Summaries`). Lemmas state
  soundness, completeness, order, distinctness and the count.
- **Dispatcher** (`Handler.dfy`): the `lambda_handler` body. It flattens the parameter list with a loop
  (last write wins), dispatches on the exact API path, and reads the price strings: absent or empty means
  no bound. It wraps the outcome as `{response: ...}`. Every fault becomes the
  `Error processing request: ...` envelope. The method `LambdaHandler` is proved equal to the function
  `Handle`, and the dispatch lemmas are stated about `Handle`.
- **Text helpers** (`Text.dfy`): ASCII lower-casing and substring containment. `Contains` is proved to
  agree with "occurs at some position".
- **Seed examples** (`Examples.dfy`): concrete invocations on the seed catalog.

Representation choices:

- Prices are `real`. Python's `float(...)` on a string is the parameter `parse: string -> Option<real>`.
  `None` marks a string it rejects.
- Python's `str.lower()` is ASCII lower-casing.
- In a parameter entry, an absent `name` or `value` key is `None`; reading it raises `KeyError`. Python
  evaluates `param["value"]` before `param["name"]`, so an entry missing both reports `'value'`.
- On the event, an absent `apiPath` or `parameters` key takes the source's defaults, `""` and `[]`.
- The catalog is a sequence keyed by each record's `productId`. In the source the dictionary keys equal the
  records' ids.

## Model

| member | source | states |
|---|---|---|
| `Text.ContainsIff` | lambda_code/product_info/index.py:70-71 | the `in` test used by the query filter holds exactly when the query occurs at some position of the text |
| `Catalog.ProductDatabaseUniqueIds` | lambda_code/product_info/index.py:15-40 | the seed catalog has no repeated product identifier |
| `Catalog.Lookup` | lambda_code/product_info/index.py:47 | `dict.get` returns a stored record whose id is the requested one, and returns nothing exactly when no record has that id (an absent id matches nothing) |
| `Catalog.GetProductDetails` | lambda_code/product_info/index.py:43-55 | the result is a stored record carrying the requested id, or exactly `{error: "Product not found", productId: id}`; it is "not found" if and only if no record has that id |
| `Catalog.GetProductDetailsFound` | lambda_code/product_info/index.py:47-55 | in a catalog keyed by id, looking up a stored record's id returns that record unchanged |
| `Text.Lower` | lambda_code/product_info/index.py:70-71 | no contract; ASCII lower-casing, used through `Search.QueryMatchesIff`, which states the case-insensitive match |
| `Search.Summarize` | lambda_code/product_info/index.py:81-86 | no contract; the four-field projection, specified by `Search.SearchProducts` and `Search.SearchSound`, which tie each result to `Summarize` of its source record |
| `Search.SearchProducts` | lambda_code/product_info/index.py:58-91 | the loop returns the summaries of the records passing every supplied filter, in catalog order, and `totalResults` equals the length of `results` |
| `Search.SelectedAtIndices` | lambda_code/product_info/index.py:66-86 | the selection is the catalog at a strictly increasing list of positions; a position is in the list if and only if its record passes the filters (an ordered, sound and complete subsequence) |
| `Search.SearchSound` | lambda_code/product_info/index.py:70-78 | every returned summary is the projection of a catalog record that passes the query and both inclusive price bounds |
| `Search.SearchComplete` | lambda_code/product_info/index.py:68-86 | the summary of every catalog record that passes all filters is among the results |
| `Search.SearchDistinct` | lambda_code/product_info/index.py:68-86 | in a catalog keyed by id the results repeat no identifier, so each passing record appears exactly once |
| `Search.NoFiltersSelectsAll` | lambda_code/product_info/index.py:66-86 | with no query and no bounds every record is selected, in catalog order |
| `Search.QueryMatchesIff` | lambda_code/product_info/index.py:70-72 | a query passes exactly when its lower-cased text occurs in the lower-cased name or the lower-cased description; the empty query passes every record |
| `Handler.FaultMessage` | lambda_code/product_info/index.py:138-144 | the catch-all error text starts with `Error processing request: ` and has a description after it |
| `Handler.FlattenedFailurePersists` | lambda_code/product_info/index.py:106-107 | once an entry of the parameter list raises, flattening the whole list raises the same fault |
| `Handler.FlattenParameters` | lambda_code/product_info/index.py:105-107 | the loop builds exactly the flattened dictionary, or raises the fault of the first malformed entry |
| `Handler.FlattenedFirstMalformed` | lambda_code/product_info/index.py:106-107 | the fault is that of the first entry lacking a key: `'value'` if its value is missing, otherwise `'name'` |
| `Handler.FlattenedSucceedsIff` | lambda_code/product_info/index.py:106-107 | flattening succeeds if and only if every entry has both a name and a value |
| `Handler.FlattenedLastWriteWins` | lambda_code/product_info/index.py:105-107 | the keys are exactly the names supplied, and each name maps to the value of its last occurrence |
| `Handler.ParseBound` | lambda_code/product_info/index.py:119-120 | no contract; specified by `Handler.HandleSearchWithoutBounds`, `Handler.HandleSearchWithBounds` and `Handler.HandleSearchBadPrice`: absent or empty means no bound, otherwise the parser's value or its fault |
| `Handler.LambdaHandler` | lambda_code/product_info/index.py:94-144 | the handler method computes the envelope the dispatch specification `Handle` gives |
| `Handler.HandleOutcomes` | lambda_code/product_info/index.py:112-144 | every invocation ends in an envelope: lookup outcomes only on the lookup path, search results with a matching count only on the search path, the path error only on other paths, and otherwise the prefixed catch-all error |
| `Handler.HandleUnsupportedPath` | lambda_code/product_info/index.py:100-128 | an unknown path, including an absent one read as `""`, yields `{response: {error: "Unsupported API path", apiPath: path}}` |
| `Handler.HandleMalformedParameter` | lambda_code/product_info/index.py:98-144 | a parameter entry without a name or a value turns any invocation into the catch-all error envelope |
| `Handler.HandleProductFound` | lambda_code/product_info/index.py:112-133 | on the lookup path, the id the last `productId` entry gives returns its stored record, wrapped as the response |
| `Handler.HandleProductNotFound` | lambda_code/product_info/index.py:47-114 | on the lookup path, an unknown or absent id yields the "not found" object carrying that id |
| `Handler.HandleSearchWithoutBounds` | lambda_code/product_info/index.py:116-122 | an absent or empty `minPrice` or `maxPrice` imposes no bound rather than zero, whatever the number parser would say |
| `Handler.HandleSearchWithBounds` | lambda_code/product_info/index.py:116-133 | with both price strings read, the response is the search over the seed catalog with the query and those bounds |
| `Handler.HandleSearchBadPrice` | lambda_code/product_info/index.py:116-144 | a price string the parser rejects yields the catch-all error envelope instead of a fault |
| `SeedExamples.SearchWithoutFiltersReturnsAll` | lambda_code/product_info/index.py:15-91 | a search with no filters returns the three seed summaries in seed order, with a count of 3 |
| `SeedExamples.SearchAboveAllPricesIsEmpty` | lambda_code/product_info/index.py:74-91 | `minPrice=200` returns `{results: [], totalResults: 0}` |
| `SeedExamples.LookupSmartBlender` | lambda_code/product_info/index.py:24-114 | looking up `prod-002` returns the stored Smart Blender record |
| `SeedExamples.DeleteProductIsUnsupported` | lambda_code/product_info/index.py:124-128 | the path `/deleteProduct` yields the path error naming it |
| `SeedExamples.NonNumericMinPriceIsError` | lambda_code/product_info/index.py:116-144 | a non-numeric `minPrice` yields the prefixed catch-all error |
| `SeedExamples.RepeatedProductIdUsesLast` | lambda_code/product_info/index.py:105-114 | when `productId` is supplied twice, the later value is the one looked up |

## Left out

- The `boto3` client created at load time: it is never used.
- Logging and `json.dumps` of the event and the response: observability only.
- IEEE floating point: prices are exact decimals, and Python's `float` parser is an abstract parameter.
  So its grammar is not modelled, and neither are `nan` and `inf`. A `nan` bound would make every price comparison false.
- Unicode case mapping in `str.lower()`: only ASCII letters are lower-cased.
- The exact text of `str(e)`. `FaultMessage` approximates the messages of `KeyError` and `ValueError`. Only the
  fixed prefix is claimed.
- JSON values outside the string schema: the model's types hold only strings and absent keys, so a `null`,
  number, list or object value cannot be written. The source handles some of these without a fault:
  - a `null` or zero `minPrice`/`maxPrice` is falsy and means no bound;
  - a numeric price such as 150 becomes a bound through `float`;
  - a `null` or numeric `productId` comes back in the "not found" object;
  - a `null` `apiPath` gives the path error carrying `null`;
  - a `null` or numeric `name` becomes an ordinary dictionary key.

  Others raise, and the source turns them into the catch-all error envelope:
  - a `null`, number or boolean `parameters`, or a non-empty string or object (an empty string or an empty
    object loops zero times and acts like `[]`);
  - an entry that is not an object;
  - an unhashable name;
  - a list or object `productId`, which the catalog's `get` cannot hash;
  - a truthy `query` that is not a string (it has no `.lower()`);
  - a truthy price that is neither a string nor a number.
- `actionGroup` and `category` are read but have no effect, and the `context` argument is received and unused; the model ignores all three.
- The truthiness test `if not product` on a found record: every stored record is a non-empty dictionary, so the
  model treats any hit as found.
