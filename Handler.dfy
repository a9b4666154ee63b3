/** `lambda_handler`: flatten the parameters, dispatch on the API path, wrap the result in an envelope,
    and turn any fault into the error envelope. */
module Handler {
  import opened Wrappers
  import opened ProductModel
  import opened Catalog
  import opened Search

  /** One entry of the `parameters` list; `None` stands for a key missing from the entry. */
  datatype Param = Param(name: Option<string>, value: Option<string>)

  /** The invocation's top-level fields; `None` stands for a key missing from the event. */
  datatype Event = Event(actionGroup: Option<string>, apiPath: Option<string>, parameters: Option<seq<Param>>)

  /** The faults the handler's body can raise: a missing key in a parameter entry (`KeyError`),
      or a price string the number parser rejects (`ValueError`). */
  datatype Fault = MissingKey(key: string) | NotAFloat(text: string)

  const GetProductDetailsPath: string := "/getProductDetails"
  const SearchProductsPath: string := "/searchProducts"

  /** The text of the catch-all error: the fixed prefix followed by a description of the fault. */
  function FaultMessage(fault: Fault): (m: string)
    ensures FaultPrefix <= m
    ensures |m| > |FaultPrefix|
  {
    FaultPrefix + match fault
      case MissingKey(key) => "'" + key + "'"
      case NotAFloat(text) => "could not convert string to float: '" + text + "'"
  }

  /** The dictionary built from the parameter list, entry by entry, a later name overwriting an earlier one.
      The entry's value is read before its name, so an entry missing both reports the value. */
  function Flattened(ps: seq<Param>): Result<map<string, string>, Fault>
    decreases |ps|
  {
    if ps == [] then Success(map[])
    else
      var last := ps[|ps| - 1];
      match Flattened(ps[..|ps| - 1])
      case Failure(fault) => Failure(fault)
      case Success(params) =>
        if last.value.None? then Failure(MissingKey("value"))
        else if last.name.None? then Failure(MissingKey("name"))
        else Success(params[last.name.value := last.value.value])
  }

  /** Once a prefix of the list has raised, the whole list raises the same fault. */
  lemma {:induction false} FlattenedFailurePersists(ps: seq<Param>, i: int)
    requires 0 <= i <= |ps|
    requires Flattened(ps[..i]).Failure?
    ensures Flattened(ps) == Flattened(ps[..i])
    decreases |ps|
  {
    if i < |ps| {
      var init := ps[..|ps| - 1];
      assert init[..i] == ps[..i];
      FlattenedFailurePersists(init, i);
    } else {
      assert ps[..i] == ps;
    }
  }

  /** The loop of the handler that copies `param["value"]` into `params[param["name"]]`. */
  method FlattenParameters(parameters: seq<Param>) returns (r: Result<map<string, string>, Fault>)
    ensures r == Flattened(parameters)
  {
    var params: map<string, string> := map[];
    for i := 0 to |parameters|
      invariant Flattened(parameters[..i]) == Success(params)
    {
      assert parameters[..i + 1][..i] == parameters[..i];
      var param := parameters[i];
      if param.value.None? {
        FlattenedFailurePersists(parameters, i + 1);
        return Failure(MissingKey("value"));
      }
      if param.name.None? {
        FlattenedFailurePersists(parameters, i + 1);
        return Failure(MissingKey("name"));
      }
      params := params[param.name.value := param.value.value];
    }
    assert parameters[..|parameters|] == parameters;
    r := Success(params);
  }

  /** Flattening succeeds exactly when every entry has both a name and a value. */
  lemma {:induction false} FlattenedSucceedsIff(ps: seq<Param>)
    ensures Flattened(ps).Success? <==> forall k :: 0 <= k < |ps| ==> ps[k].name.Some? && ps[k].value.Some?
    decreases |ps|
  {
    if ps != [] {
      var init := ps[..|ps| - 1];
      FlattenedSucceedsIff(init);
      assert forall k :: 0 <= k < |init| ==> init[k] == ps[k];
    }
  }

  /** The first entry without a value or a name decides the fault: its missing value if it has none,
      otherwise its missing name. */
  lemma FlattenedFirstMalformed(ps: seq<Param>, k: int)
    requires 0 <= k < |ps|
    requires forall j :: 0 <= j < k ==> ps[j].name.Some? && ps[j].value.Some?
    requires ps[k].name.None? || ps[k].value.None?
    ensures Flattened(ps) == Failure(MissingKey(if ps[k].value.None? then "value" else "name"))
  {
    var init := ps[..k];
    assert forall j :: 0 <= j < |init| ==> init[j] == ps[j];
    FlattenedSucceedsIff(init);
    assert ps[..k + 1][..k] == init;
    FlattenedFailurePersists(ps, k + 1);
  }

  /** The names an entry list supplies. */
  ghost function Names(ps: seq<Param>): set<string> {
    set k | 0 <= k < |ps| && ps[k].name.Some? :: ps[k].name.value
  }

  /** Last write wins: the keys are exactly the names supplied, and each name maps to the value of its
      last occurrence in the list. */
  lemma {:induction false} FlattenedLastWriteWins(ps: seq<Param>)
    requires Flattened(ps).Success?
    ensures Flattened(ps).value.Keys == Names(ps)
    ensures forall k :: 0 <= k < |ps| && ps[k].name.Some? && ps[k].value.Some?
                        && (forall j :: k < j < |ps| ==> ps[j].name != ps[k].name) ==>
              ps[k].name.value in Flattened(ps).value
              && Flattened(ps).value[ps[k].name.value] == ps[k].value.value
    decreases |ps|
  {
    if ps != [] {
      var n := |ps| - 1;
      var init, last := ps[..n], ps[n];
      FlattenedLastWriteWins(init);
      var m := Flattened(init).value;
      assert Flattened(ps) == Success(m[last.name.value := last.value.value]);
      assert Names(ps) == Names(init) + {last.name.value} by {
        forall x | x in Names(ps) ensures x in Names(init) + {last.name.value} {
          var k :| 0 <= k < |ps| && ps[k].name.Some? && ps[k].name.value == x;
          if k < n { assert init[k] == ps[k]; }
        }
        forall x | x in Names(init) ensures x in Names(ps) {
          var k :| 0 <= k < |init| && init[k].name.Some? && init[k].name.value == x;
          assert ps[k] == init[k];
        }
      }
      forall k | 0 <= k < n && ps[k].name.Some? && ps[k].value.Some?
                 && (forall j :: k < j < |ps| ==> ps[j].name != ps[k].name)
        ensures ps[k].name.value in m && m[ps[k].name.value] == ps[k].value.value
      {
        assert init[k] == ps[k];
        assert forall j :: k < j < |init| ==> init[j] == ps[j];
      }
    }
  }

  /** Python's `dict.get(key)`. */
  function Get(params: map<string, string>, key: string): Option<string> {
    if key in params then Some(params[key]) else None
  }

  /** A price bound: absent or empty means no bound; any other string goes through the number parser,
      whose rejection is a fault. */
  function ParseBound(params: map<string, string>, key: string, parse: string -> Option<real>): Result<Option<real>, Fault> {
    if key !in params || params[key] == "" then Success(None)
    else match parse(params[key])
      case None => Failure(NotAFloat(params[key]))
      case Some(x) => Success(Some(x))
  }

  /** The whole invocation as a value. `parse` stands for Python's `float` on strings: `None` where it raises. */
  function Handle(event: Event, parse: string -> Option<real>): Envelope {
    var apiPath := event.apiPath.GetOr("");
    match Flattened(event.parameters.GetOr([]))
    case Failure(fault) => Envelope(Failed(FaultMessage(fault)))
    case Success(params) =>
      if apiPath == GetProductDetailsPath then
        Envelope(GetProductDetails(ProductDatabase, Get(params, "productId")))
      else if apiPath == SearchProductsPath then
        match ParseBound(params, "minPrice", parse)
        case Failure(fault) => Envelope(Failed(FaultMessage(fault)))
        case Success(lo) =>
          match ParseBound(params, "maxPrice", parse)
          case Failure(fault) => Envelope(Failed(FaultMessage(fault)))
          case Success(hi) =>
            var selected := Selected(ProductDatabase, Filters(Get(params, "query"), lo, hi));
            Envelope(Search(Summaries(selected), |selected|))
      else
        Envelope(UnsupportedPath(UnsupportedPathMessage, apiPath))
  }

  /** The handler: read the event's fields with their defaults, flatten, dispatch, wrap.
      The action group and the category are read by the source and have no effect. */
  method LambdaHandler(event: Event, parse: string -> Option<real>) returns (out: Envelope)
    ensures out == Handle(event, parse)
  {
    var apiPath := event.apiPath.GetOr("");
    var parameters := event.parameters.GetOr([]);
    var flat := FlattenParameters(parameters);
    if flat.Failure? {
      return Envelope(Failed(FaultMessage(flat.error)));
    }
    var params := flat.value;
    var response: Response;
    if apiPath == GetProductDetailsPath {
      response := GetProductDetails(ProductDatabase, Get(params, "productId"));
    } else if apiPath == SearchProductsPath {
      var query := Get(params, "query");
      var category := Get(params, "category");
      var minPrice := ParseBound(params, "minPrice", parse);
      if minPrice.Failure? {
        return Envelope(Failed(FaultMessage(minPrice.error)));
      }
      var maxPrice := ParseBound(params, "maxPrice", parse);
      if maxPrice.Failure? {
        return Envelope(Failed(FaultMessage(maxPrice.error)));
      }
      response := SearchProducts(ProductDatabase, query, category, minPrice.value, maxPrice.value);
    } else {
      response := UnsupportedPath(UnsupportedPathMessage, apiPath);
    }
    out := Envelope(response);
  }

  /** Every invocation ends in an envelope: a lookup outcome only on the lookup path, a search result
      (whose count is its length) only on the search path, the path error only on any other path,
      and otherwise the catch-all error with its fixed prefix. */
  lemma HandleOutcomes(event: Event, parse: string -> Option<real>)
    ensures var r := Handle(event, parse).response;
      && ((r.ProductRecord? || r.NotFound?) ==> event.apiPath.GetOr("") == GetProductDetailsPath)
      && (r.Search? ==> event.apiPath.GetOr("") == SearchProductsPath && r.totalResults == |r.results|)
      && (r.UnsupportedPath? ==> r.apiPath == event.apiPath.GetOr("")
                                 && event.apiPath.GetOr("") != GetProductDetailsPath
                                 && event.apiPath.GetOr("") != SearchProductsPath)
      && (r.Failed? ==> FaultPrefix <= r.error)
  {
  }

  /** An unknown path yields the path error carrying that path (an absent path reads as ""). */
  lemma HandleUnsupportedPath(event: Event, parse: string -> Option<real>)
    requires event.apiPath.GetOr("") != GetProductDetailsPath && event.apiPath.GetOr("") != SearchProductsPath
    requires Flattened(event.parameters.GetOr([])).Success?
    ensures Handle(event, parse) == Envelope(UnsupportedPath(UnsupportedPathMessage, event.apiPath.GetOr("")))
  {
  }

  /** A parameter entry without a name or a value makes the whole invocation the catch-all error, on every path. */
  lemma HandleMalformedParameter(event: Event, parse: string -> Option<real>, k: int)
    requires event.parameters.Some? && 0 <= k < |event.parameters.value|
    requires event.parameters.value[k].name.None? || event.parameters.value[k].value.None?
    ensures Handle(event, parse).response.Failed?
    ensures FaultPrefix <= Handle(event, parse).response.error
  {
    FlattenedSucceedsIff(event.parameters.value);
  }

  /** On the lookup path the stored record comes back unchanged for a known id (the last `productId` wins). */
  lemma HandleProductFound(event: Event, parse: string -> Option<real>, k: int)
    requires event.apiPath == Some(GetProductDetailsPath)
    requires Flattened(event.parameters.GetOr([])).Success?
    requires 0 <= k < |ProductDatabase|
    requires Get(Flattened(event.parameters.GetOr([])).value, "productId") == Some(ProductDatabase[k].productId)
    ensures Handle(event, parse) == Envelope(ProductRecord(ProductDatabase[k]))
  {
  }

  /** On the lookup path an unknown or absent id yields the "not found" object carrying it. */
  lemma HandleProductNotFound(event: Event, parse: string -> Option<real>)
    requires event.apiPath == Some(GetProductDetailsPath)
    requires Flattened(event.parameters.GetOr([])).Success?
    requires forall k :: 0 <= k < |ProductDatabase| ==>
               Get(Flattened(event.parameters.GetOr([])).value, "productId") != Some(ProductDatabase[k].productId)
    ensures Handle(event, parse) == Envelope(NotFound(NotFoundMessage, Get(Flattened(event.parameters.GetOr([])).value, "productId")))
  {
  }

  /** On the search path an absent or empty price string imposes no bound (it is not read as zero),
      whatever the number parser would have said. */
  lemma HandleSearchWithoutBounds(event: Event, parse: string -> Option<real>)
    requires event.apiPath == Some(SearchProductsPath)
    requires Flattened(event.parameters.GetOr([])).Success?
    requires var params := Flattened(event.parameters.GetOr([])).value;
      && ("minPrice" !in params || params["minPrice"] == "")
      && ("maxPrice" !in params || params["maxPrice"] == "")
    ensures var params := Flattened(event.parameters.GetOr([])).value;
      var selected := Selected(ProductDatabase, Filters(Get(params, "query"), None, None));
      Handle(event, parse) == Envelope(Search(Summaries(selected), |selected|))
  {
  }

  /** On the search path a price string the parser rejects yields the catch-all error, not a fault. */
  lemma HandleSearchBadPrice(event: Event, parse: string -> Option<real>)
    requires event.apiPath == Some(SearchProductsPath)
    requires Flattened(event.parameters.GetOr([])).Success?
    requires var params := Flattened(event.parameters.GetOr([])).value;
      || ("minPrice" in params && params["minPrice"] != "" && parse(params["minPrice"]).None?)
      || ("maxPrice" in params && params["maxPrice"] != "" && parse(params["maxPrice"]).None?)
    ensures Handle(event, parse).response.Failed?
    ensures FaultPrefix <= Handle(event, parse).response.error
  {
  }

  /** On the search path, once both price strings are read, the result is the summaries of the
      seed records passing the query and those bounds, with their count. */
  lemma HandleSearchWithBounds(event: Event, parse: string -> Option<real>, lo: Option<real>, hi: Option<real>)
    requires event.apiPath == Some(SearchProductsPath)
    requires Flattened(event.parameters.GetOr([])).Success?
    requires ParseBound(Flattened(event.parameters.GetOr([])).value, "minPrice", parse) == Success(lo)
    requires ParseBound(Flattened(event.parameters.GetOr([])).value, "maxPrice", parse) == Success(hi)
    ensures var params := Flattened(event.parameters.GetOr([])).value;
      var selected := Selected(ProductDatabase, Filters(Get(params, "query"), lo, hi));
      Handle(event, parse) == Envelope(Search(Summaries(selected), |selected|))
  {
  }
}
