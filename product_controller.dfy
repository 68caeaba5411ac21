/**
 * The public search endpoint: coerce and validate the paging and year
 * parameters, resolve make and model ids to the names the search index
 * filters on, call the search service once, and shape the paginated answer.
 */
module ProductController {
  import opened Wrappers
  import opened Database
  import Js
  import Sql
  import SyncMeili

  /** The query string of a request; each parameter is absent or a string. */
  datatype SearchParams = SearchParams(
    q: Option<string>,
    make_id: Option<string>,
    model_id: Option<string>,
    year: Option<string>,
    category_slug: Option<string>,
    limit: Option<string>,
    offset: Option<string>)

  /** The parameters once defaults are applied and numbers coerced. */
  datatype Coerced = Coerced(q: string, limit: Js.JsNumber, offset: Js.JsNumber, year: Option<Js.JsNumber>)

  /** What the search service is asked: names, not ids. */
  datatype SearchRequest = SearchRequest(
    query: string,
    makeName: Option<string>,
    modelName: Option<string>,
    year: Option<Js.JsNumber>,
    categorySlug: Option<string>,
    limit: Js.JsNumber,
    offset: Js.JsNumber)

  /** What the search service answers: the total number of hits and one page of them. */
  datatype SearchReply = SearchReply(count: int, rows: seq<SyncMeili.Document>)

  /** The raw filters echoed back to the caller. */
  datatype Filters = Filters(
    q: string,
    make_id: Option<string>,
    model_id: Option<string>,
    year: Option<Js.JsNumber>,
    category_slug: Option<string>)

  /** The JSON body of a successful search. */
  datatype SearchResponse = SearchResponse(
    count: int,
    limit: Js.JsNumber,
    offset: Js.JsNumber,
    results: seq<SyncMeili.Document>,
    filters: Filters)

  const LimitMessage: string := "Invalid limit (1\U{2013}100)"

  /** `Number(limit)`, where an omitted limit is the number 20. */
  function LimitOf(p: SearchParams, toNumber: string -> Js.JsNumber): Js.JsNumber {
    if p.limit.Some? then toNumber(p.limit.value) else Js.FromInt(20)
  }

  /** `Number(offset)`, where an omitted offset is the number 0. */
  function OffsetOf(p: SearchParams, toNumber: string -> Js.JsNumber): Js.JsNumber {
    if p.offset.Some? then toNumber(p.offset.value) else Js.FromInt(0)
  }

  /** `year ? Number(year) : null`. */
  function YearOf(p: SearchParams, toNumber: string -> Js.JsNumber): Option<Js.JsNumber> {
    if Js.Truthy(p.year) then Some(toNumber(p.year.value)) else None
  }

  predicate LimitAccepted(n: Js.JsNumber) {
    !n.NaN? && !Js.LessThan(n, 1.0) && !Js.GreaterThan(n, 100.0)
  }

  predicate OffsetAccepted(n: Js.JsNumber) {
    !n.NaN? && !Js.LessThan(n, 0.0)
  }

  predicate YearAccepted(p: SearchParams, toNumber: string -> Js.JsNumber) {
    !(Js.Truthy(p.year) && YearOf(p, toNumber).value.NaN?)
  }

  /**
   * Coercion and validation, checked in the order limit, offset, year, so the
   * first failing check is the one reported. No table is read here.
   */
  function Coerce(p: SearchParams, toNumber: string -> Js.JsNumber): (r: Result<Coerced, ServerError>)
    ensures !LimitAccepted(LimitOf(p, toNumber)) ==> r == Err(AppError(LimitMessage, 400))
    ensures LimitAccepted(LimitOf(p, toNumber)) && !OffsetAccepted(OffsetOf(p, toNumber))
            ==> r == Err(AppError("Invalid offset", 400))
    ensures LimitAccepted(LimitOf(p, toNumber)) && OffsetAccepted(OffsetOf(p, toNumber)) && !YearAccepted(p, toNumber)
            ==> r == Err(AppError("Invalid year", 400))
    ensures r.Ok? <==> LimitAccepted(LimitOf(p, toNumber)) && OffsetAccepted(OffsetOf(p, toNumber)) && YearAccepted(p, toNumber)
    ensures r.Ok? ==> r.value == Coerced(p.q.GetOr(""), LimitOf(p, toNumber), OffsetOf(p, toNumber), YearOf(p, toNumber))
  {
    var limit := LimitOf(p, toNumber);
    var offset := OffsetOf(p, toNumber);
    var year := YearOf(p, toNumber);
    if limit.NaN? || Js.LessThan(limit, 1.0) || Js.GreaterThan(limit, 100.0) then
      Err(AppError(LimitMessage, 400))
    else if offset.NaN? || Js.LessThan(offset, 0.0) then
      Err(AppError("Invalid offset", 400))
    else if Js.Truthy(p.year) && year.value.NaN? then
      Err(AppError("Invalid year", 400))
    else
      Ok(Coerced(p.q.GetOr(""), limit, offset, year))
  }

  /** Omitted parameters take their defaults: q = "", limit = 20, offset = 0, and no year. */
  lemma OmittedParametersDefault(p: SearchParams, toNumber: string -> Js.JsNumber)
    requires p.q.None? && p.limit.None? && p.offset.None? && (p.year.None? || p.year == Some(""))
    ensures Coerce(p, toNumber) == Ok(Coerced("", Js.Finite(20.0), Js.Finite(0.0), None))
  {
  }

  /** `SELECT name FROM vehicle_makes WHERE id = $1`, for a truthy make_id. */
  function ResolveMake(makes: seq<Make>, param: string): (r: Result<string, ServerError>)
    ensures r.Ok? <==> Sql.CastInt4(param).Some? && MakeById(makes, Sql.CastInt4(param).value).Some?
    ensures r.Ok? ==> exists m | m in makes :: m.id == Sql.CastInt4(param).value && m.name == r.value
    ensures Sql.CastInt4(param).None? ==> r == Err(QueryError)
    ensures Sql.CastInt4(param).Some? && r.Err? ==> r == Err(AppError("Invalid make_id", 400))
  {
    match Sql.CastInt4(param)
    case None => Err(QueryError)
    case Some(id) =>
      match MakeById(makes, id)
      case None => Err(AppError("Invalid make_id", 400))
      case Some(m) => Ok(m.name)
  }

  /** `SELECT name FROM vehicle_models WHERE id = $1`, for a truthy model_id. */
  function ResolveModel(models: seq<Model>, param: string): (r: Result<string, ServerError>)
    ensures r.Ok? <==> Sql.CastInt4(param).Some? && ModelById(models, Sql.CastInt4(param).value).Some?
    ensures r.Ok? ==> exists m | m in models :: m.id == Sql.CastInt4(param).value && m.name == r.value
    ensures Sql.CastInt4(param).None? ==> r == Err(QueryError)
    ensures Sql.CastInt4(param).Some? && r.Err? ==> r == Err(AppError("Invalid model_id", 400))
  {
    match Sql.CastInt4(param)
    case None => Err(QueryError)
    case Some(id) =>
      match ModelById(models, id)
      case None => Err(AppError("Invalid model_id", 400))
      case Some(m) => Ok(m.name)
  }

  /** The make name the handler holds after resolution: null when make_id is absent or empty. */
  function MakeNameFor(makes: seq<Make>, p: SearchParams): Result<Option<string>, ServerError> {
    if !Js.Truthy(p.make_id) then Ok(None)
    else match ResolveMake(makes, p.make_id.value)
      case Ok(name) => Ok(Some(name))
      case Err(e) => Err(e)
  }

  function ModelNameFor(models: seq<Model>, p: SearchParams): Result<Option<string>, ServerError> {
    if !Js.Truthy(p.model_id) then Ok(None)
    else match ResolveModel(models, p.model_id.value)
      case Ok(name) => Ok(Some(name))
      case Err(e) => Err(e)
  }

  /** The search service's arguments: the coerced values, and the resolved names in place of the ids. */
  function RequestOf(p: SearchParams, c: Coerced, makeName: Option<string>, modelName: Option<string>): (r: SearchRequest)
    ensures r.query == c.q && r.year == c.year && r.limit == c.limit && r.offset == c.offset
    ensures r.makeName == makeName && r.modelName == modelName && r.categorySlug == p.category_slug
  {
    SearchRequest(c.q, makeName, modelName, c.year, p.category_slug, c.limit, c.offset)
  }

  /** The JSON reply: the service's count and page, the coerced paging, and the filters as sent. */
  function ResponseOf(p: SearchParams, c: Coerced, reply: SearchReply): (r: SearchResponse)
    ensures r.count == reply.count && r.results == reply.rows && r.limit == c.limit && r.offset == c.offset
    ensures r.filters.make_id == p.make_id && r.filters.model_id == p.model_id
    ensures r.filters.q == c.q && r.filters.year == c.year && r.filters.category_slug == p.category_slug
  {
    SearchResponse(reply.count, c.limit, c.offset, reply.rows,
                   Filters(c.q, p.make_id, p.model_id, c.year, p.category_slug))
  }

  /**
   * `searchProducts`: validation, then the make, then the model, then one
   * call of the search service `search` (an abstract service).
   */
  function SearchProducts(
    p: SearchParams, toNumber: string -> Js.JsNumber, catalog: Catalog, search: SearchRequest -> SearchReply)
    : (r: Result<SearchResponse, ServerError>)
    ensures Coerce(p, toNumber).Err? ==> r == Err(Coerce(p, toNumber).error)
    ensures Coerce(p, toNumber).Ok? && MakeNameFor(catalog.makes, p).Err?
            ==> r == Err(MakeNameFor(catalog.makes, p).error)
    ensures r.Ok? <==> Coerce(p, toNumber).Ok? && MakeNameFor(catalog.makes, p).Ok? && ModelNameFor(catalog.models, p).Ok?
  {
    match Coerce(p, toNumber)
    case Err(e) => Err(e)
    case Ok(c) =>
      match MakeNameFor(catalog.makes, p)
      case Err(e) => Err(e)
      case Ok(makeName) =>
        match ModelNameFor(catalog.models, p)
        case Err(e) => Err(e)
        case Ok(modelName) => Ok(ResponseOf(p, c, search(RequestOf(p, c, makeName, modelName))))
  }

  /** A rejected limit, offset or year fails before any table or the service is consulted. */
  lemma ValidationFailsBeforeLookups(
    p: SearchParams, toNumber: string -> Js.JsNumber,
    c1: Catalog, s1: SearchRequest -> SearchReply, c2: Catalog, s2: SearchRequest -> SearchReply)
    requires Coerce(p, toNumber).Err?
    ensures SearchProducts(p, toNumber, c1, s1) == SearchProducts(p, toNumber, c2, s2)
    ensures SearchProducts(p, toNumber, c1, s1).error.AppError?
    ensures SearchProducts(p, toNumber, c1, s1).error.status == 400
  {
  }

  /**
   * An unknown make_id is a 400 "Invalid make_id" whatever the model and the
   * search service: the make is resolved first and the service is not reached.
   */
  lemma UnknownMakeRejected(
    p: SearchParams, toNumber: string -> Js.JsNumber, catalog: Catalog, search: SearchRequest -> SearchReply)
    requires Coerce(p, toNumber).Ok?
    requires Js.Truthy(p.make_id) && Sql.CastInt4(p.make_id.value).Some?
    requires forall m | m in catalog.makes :: m.id != Sql.CastInt4(p.make_id.value).value
    ensures SearchProducts(p, toNumber, catalog, search) == Err(AppError("Invalid make_id", 400))
  {
  }

  /** An unknown model_id, once the make (if any) resolved, is a 400 "Invalid model_id". */
  lemma UnknownModelRejected(
    p: SearchParams, toNumber: string -> Js.JsNumber, catalog: Catalog, search: SearchRequest -> SearchReply)
    requires Coerce(p, toNumber).Ok? && MakeNameFor(catalog.makes, p).Ok?
    requires Js.Truthy(p.model_id) && Sql.CastInt4(p.model_id.value).Some?
    requires forall m | m in catalog.models :: m.id != Sql.CastInt4(p.model_id.value).value
    ensures SearchProducts(p, toNumber, catalog, search) == Err(AppError("Invalid model_id", 400))
  {
  }

  /**
   * A successful search passes the resolved names (not the ids), the coerced
   * numbers and the raw q and category_slug to the service, and answers with
   * the service's count and rows, the coerced limit and offset, and the raw
   * filters.
   */
  lemma SuccessfulSearchShape(
    p: SearchParams, toNumber: string -> Js.JsNumber, catalog: Catalog, search: SearchRequest -> SearchReply)
    requires SearchProducts(p, toNumber, catalog, search).Ok?
    ensures
      var c := Coerce(p, toNumber).value;
      var makeName := MakeNameFor(catalog.makes, p).value;
      var modelName := ModelNameFor(catalog.models, p).value;
      var request := SearchRequest(p.q.GetOr(""), makeName, modelName, YearOf(p, toNumber), p.category_slug,
                                   LimitOf(p, toNumber), OffsetOf(p, toNumber));
      && (makeName.None? <==> !Js.Truthy(p.make_id))
      && (makeName.Some? ==> exists m | m in catalog.makes :: m.id == Sql.CastInt4(p.make_id.value).value && m.name == makeName.value)
      && (modelName.Some? ==> exists m | m in catalog.models :: m.id == Sql.CastInt4(p.model_id.value).value && m.name == modelName.value)
      && SearchProducts(p, toNumber, catalog, search).value
         == SearchResponse(search(request).count, LimitOf(p, toNumber), OffsetOf(p, toNumber), search(request).rows,
                           Filters(p.q.GetOr(""), p.make_id, p.model_id, YearOf(p, toNumber), p.category_slug))
  {
  }

  // ---------------------------------------------------------------------
  // The handler as it runs: awaited lookups, then one service call
  // ---------------------------------------------------------------------

  /** An external call the handler makes, in the order it makes them. */
  datatype Call = QueryMake(makeParam: string) | QueryModel(modelParam: string) | CallSearch(request: SearchRequest)

  /**
   * The filter-resolution step of the handler: `makeName` and `modelName`
   * start null and are reassigned after each awaited lookup; the make is
   * looked up first and a failed lookup returns at once.
   */
  method ResolveFilters(p: SearchParams, catalog: Catalog)
    returns (names: Result<(Option<string>, Option<string>), ServerError>, calls: seq<Call>)
    ensures names.Ok? <==> MakeNameFor(catalog.makes, p).Ok? && ModelNameFor(catalog.models, p).Ok?
    ensures names.Ok? ==> names.value == (MakeNameFor(catalog.makes, p).value, ModelNameFor(catalog.models, p).value)
    ensures MakeNameFor(catalog.makes, p).Err? ==> names == Err(MakeNameFor(catalog.makes, p).error)
    ensures MakeNameFor(catalog.makes, p).Ok? && ModelNameFor(catalog.models, p).Err?
            ==> names == Err(ModelNameFor(catalog.models, p).error)
    ensures |calls| <= 2 && forall i | 0 <= i < |calls| :: !calls[i].CallSearch?
    ensures Js.Truthy(p.make_id) ==> |calls| > 0 && calls[0] == QueryMake(p.make_id.value)
    ensures MakeNameFor(catalog.makes, p).Err? ==> forall i | 0 <= i < |calls| :: !calls[i].QueryModel?
  {
    calls := [];
    var makeName: Option<string> := None;
    var modelName: Option<string> := None;

    if Js.Truthy(p.make_id) {
      calls := calls + [QueryMake(p.make_id.value)];
      var rows := ResolveMake(catalog.makes, p.make_id.value);
      if rows.Err? {
        return Err(rows.error), calls;
      }
      makeName := Some(rows.value);
    }

    if Js.Truthy(p.model_id) {
      calls := calls + [QueryModel(p.model_id.value)];
      var rows := ResolveModel(catalog.models, p.model_id.value);
      if rows.Err? {
        return Err(rows.error), calls;
      }
      modelName := Some(rows.value);
    }
    names := Ok((makeName, modelName));
  }

  /**
   * The handler as it runs: validation, the lookups, then one call of the
   * search service; every early return leaves the service uncalled.
   */
  method HandleSearch(
    p: SearchParams, toNumber: string -> Js.JsNumber, catalog: Catalog, search: SearchRequest -> SearchReply)
    returns (outcome: Result<SearchResponse, ServerError>, calls: seq<Call>)
    ensures outcome == SearchProducts(p, toNumber, catalog, search)
    ensures Coerce(p, toNumber).Err? ==> calls == []
    ensures forall i | 0 <= i < |calls| && calls[i].CallSearch? :: outcome.Ok? && i == |calls| - 1
    ensures outcome.Ok? ==> |calls| > 0 && calls[|calls| - 1].CallSearch?
    ensures outcome.Ok? ==> search(calls[|calls| - 1].request) == SearchReply(outcome.value.count, outcome.value.results)
    ensures Coerce(p, toNumber).Ok? && Js.Truthy(p.make_id) ==> |calls| > 0 && calls[0] == QueryMake(p.make_id.value)
    ensures MakeNameFor(catalog.makes, p).Err? ==> forall i | 0 <= i < |calls| :: !calls[i].QueryModel?
    ensures |calls| <= 3
  {
    calls := [];
    var coerced := Coerce(p, toNumber);
    if coerced.Err? {
      return Err(coerced.error), calls;
    }
    var c := coerced.value;

    var names;
    names, calls := ResolveFilters(p, catalog);
    if names.Err? {
      return Err(names.error), calls;
    }
    var (makeName, modelName) := names.value;

    var request := RequestOf(p, c, makeName, modelName);
    var result := search(request);
    calls := calls + [CallSearch(request)];
    outcome := Ok(ResponseOf(p, c, result));
  }
}
