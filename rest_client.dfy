/** The admin-on-rest data provider of src/client.ts: translation of a request type,
    a resource name and its parameters into an HTTP request for a REST dialect built on
    `sort`, `skip` and `limit`, translation of the HTTP response back into `{data, total}`,
    and the dispatcher that fans GET_MANY out into one GET_ONE per id. */
module RestClient {
  import opened Wrappers
  import opened Decimal
  import opened JsObject
  import opened QueryString

  /** The request types of the data-provider protocol. `Other` stands for any string
      that is not one of the named constants. */
  datatype Verb =
    | GetList | GetOne | GetMany | GetManyReference | Create | Update | Delete
    | UpdateMany | DeleteMany | Other(name: string)

  /** The string value of each request-type constant. */
  function Name(v: Verb): string {
    match v
    case GetList => "GET_LIST"
    case GetOne => "GET_ONE"
    case GetMany => "GET_MANY"
    case GetManyReference => "GET_MANY_REFERENCE"
    case Create => "CREATE"
    case Update => "UPDATE"
    case Delete => "DELETE"
    case UpdateMany => "UPDATE_MANY"
    case DeleteMany => "DELETE_MANY"
    case Other(n) => n
  }

  const ConstantNames: seq<string> :=
    ["GET_LIST", "GET_ONE", "GET_MANY", "GET_MANY_REFERENCE", "CREATE", "UPDATE", "DELETE",
     "UPDATE_MANY", "DELETE_MANY"]

  /** `Other` is never used for the name of a constant. */
  predicate WellFormed(v: Verb) {
    v.Other? ==> v.name !in ConstantNames
  }

  /** The verb a request-type string denotes (the switch compares strings). */
  function VerbOf(s: string): (v: Verb)
    ensures Name(v) == s && WellFormed(v)
  {
    if s == "GET_LIST" then GetList
    else if s == "GET_ONE" then GetOne
    else if s == "GET_MANY" then GetMany
    else if s == "GET_MANY_REFERENCE" then GetManyReference
    else if s == "CREATE" then Create
    else if s == "UPDATE" then Update
    else if s == "DELETE" then Delete
    else if s == "UPDATE_MANY" then UpdateMany
    else if s == "DELETE_MANY" then DeleteMany
    else Other(s)
  }

  /** The verbs the request converter has a case for. */
  predicate Supported(v: Verb) {
    v.GetList? || v.GetManyReference? || v.GetOne? || v.Update? || v.Create? || v.Delete?
  }

  /** A value that ends up in a URL: a string, or an integer written in decimal. */
  datatype Scalar = Text(text: string) | Integer(value: int)

  /** What string concatenation and template literals make of a scalar. */
  function Render(x: Scalar): (r: string)
    ensures x.Text? ==> r == x.text
    ensures x.Integer? ==> ParseInt(r) == Int(x.value)
  {
    match x
    case Text(t) => t
    case Integer(i) =>
      ParseIntOfIntToString(i, []);
      assert IntToString(i) + [] == IntToString(i);
      IntToString(i)
  }

  /** A decoded JSON body, or a record to send (`undefined` included, since
      `json.id` may be absent). */
  datatype Json =
    | JUndefined | JNull | JBool(b: bool) | JNumber(n: int) | JString(s: string)
    | JArray(items: seq<Json>) | JObject(fields: Object<Json>)

  /** Property read `j.k` on a value that is not null or undefined. */
  function Member(j: Json, k: string): (r: Json)
    ensures !j.JObject? ==> r == JUndefined
    ensures j.JObject? && k !in Keys(j.fields) ==> r == JUndefined
    ensures j.JObject? && k in Keys(j.fields) ==> (k, r) in j.fields
  {
    if j.JObject? then
      match Lookup(j.fields, k)
      case Some(v) => v
      case None => JUndefined
    else JUndefined
  }

  /** The properties that object spread `{...j}` copies; null, undefined and the
      primitives contribute none. */
  function SpreadSource(j: Json): Object<Json> {
    if j.JObject? then j.fields else []
  }

  datatype Pagination = Pagination(page: int, perPage: int)
  datatype SortOrder = SortOrder(field: string, order: string)

  /** The request parameters. The framework passes a different record per verb; this
      record carries every field any verb reads, and each verb reads only its own. */
  datatype Params = Params(
    pagination: Pagination, sort: SortOrder, filter: Object<Scalar>,
    target: string, id: Scalar, ids: seq<Scalar>, data: Json)

  /** The record `{ id }` the dispatcher builds for each GET_ONE; the fields it lacks
      are never read by GET_ONE. */
  function IdOnly(id: Scalar): Params {
    Params(Pagination(0, 0), SortOrder("", ""), [], "", id, [], JUndefined)
  }

  /** `{ method?, body? }` (the method is held in `httpMethod`): a missing method means GET. */
  datatype Options = Options(httpMethod: Option<string>, body: Option<string>)
  datatype HttpRequest = HttpRequest(url: string, options: Options)

  /** An HTTP response as the HTTP client delivers it; header names are lower case. */
  datatype HttpResponse = HttpResponse(headers: map<string, string>, json: Json)

  /** `{ data, total? }`; `total` is what `parseInt` made of the count header. */
  datatype Envelope = Envelope(data: Json, total: Option<ParsedInt>)

  datatype Error =
    | UnsupportedType(message: string)
    | MissingTotalCount(message: string)
    | TypeError   // reading `id` of a null or undefined response body
    | Transport(reason: string)   // a rejection of the HTTP client, passed on as it is

  const TotalCountHeader := "x-total-count"

  const MissingTotalCountMessage :=
    "The X-Total-Count header is missing in the HTTP Response. The api-core REST client "
    + "expects responses for lists of resources to contain this header with the total "
    + "number of results to build the pagination. If you are using CORS, did you declare "
    + "X-Total-Count in the Access-Control-Expose-Headers header?"

  function UnsupportedMessage(v: Verb): string {
    "Unsupported fetch action type " + Name(v)
  }

  /** What `restClient(apiUrl, httpClient)` closes over; `stringify` is `JSON.stringify`. */
  datatype Config = Config(
    apiUrl: string,
    httpClient: HttpRequest -> Result<HttpResponse, string>,
    stringify: Json -> string)

  /** `field` for an ascending sort, `-field` for any other order. */
  function SortValue(s: SortOrder): (r: string)
    ensures r == s.field <==> s.order == "ASC"
    ensures s.order != "ASC" ==> r == "-" + s.field
  {
    var r := (if s.order == "ASC" then "" else "-") + s.field;
    assert s.order != "ASC" ==> |r| == |s.field| + 1;
    r
  }

  /** The properties the list query starts with, before the filter is spread in. */
  function ListBase(p: Params): Object<Scalar> {
    [("sort", Text(SortValue(p.sort))),
     ("skip", Integer((p.pagination.page - 1) * p.pagination.perPage)),
     ("limit", Integer(p.pagination.perPage))]
  }

  const ListBaseKeys: seq<string> := ["sort", "skip", "limit"]

  /** `{ sort, skip, limit, ...params.filter }`. */
  function ListQuery(p: Params): (r: Object<Scalar>)
    ensures |r| >= 3 && Keys(r)[..3] == ListBaseKeys
  {
    SpreadKeys(ListBase(p), p.filter);
    Spread(ListBase(p), p.filter)
  }

  /** `{ sort, skip, limit, ...params.filter, [params.target]: params.id }`. */
  function ReferenceQuery(p: Params): (r: Object<Scalar>)
    ensures Lookup(r, p.target) == Some(p.id)
  {
    SetLookup(ListQuery(p), p.target, p.id, p.target);
    Set(ListQuery(p), p.target, p.id)
  }

  /** The query object with every value converted to a string. */
  function Rendered(q: Object<Scalar>): seq<(string, string)> {
    seq(|q|, i requires 0 <= i < |q| => (q[i].0, Render(q[i].1)))
  }

  /** `queryParameters(query)`. */
  function QueryParameters(q: Object<Scalar>): (r: string)
    ensures r == "" <==> q == []
  {
    Encode(Rendered(q))
  }

  function CollectionUrl(apiUrl: string, resource: string): string {
    apiUrl + "/" + resource
  }

  function ItemUrl(apiUrl: string, resource: string, id: Scalar): string {
    apiUrl + "/" + resource + "/" + Render(id)
  }

  /** `convertRESTRequestToHTTP(type, resource, params)`. */
  function ConvertRequest(apiUrl: string, stringify: Json -> string, verb: Verb,
                          resource: string, p: Params): (r: Result<HttpRequest, Error>)
    ensures r.Success? <==> Supported(verb)
    ensures r.Failure? ==> r.error == UnsupportedType(UnsupportedMessage(verb))
    ensures r.Success? ==> CollectionUrl(apiUrl, resource) <= r.value.url
  {
    match verb
    case GetList =>
      Success(HttpRequest(CollectionUrl(apiUrl, resource) + "?" + QueryParameters(ListQuery(p)),
                          Options(None, None)))
    case GetManyReference =>
      Success(HttpRequest(CollectionUrl(apiUrl, resource) + "?" + QueryParameters(ReferenceQuery(p)),
                          Options(None, None)))
    case GetOne =>
      Success(HttpRequest(ItemUrl(apiUrl, resource, p.id), Options(None, None)))
    case Update =>
      Success(HttpRequest(ItemUrl(apiUrl, resource, p.id),
                          Options(Some("PUT"), Some(stringify(p.data)))))
    case Create =>
      Success(HttpRequest(CollectionUrl(apiUrl, resource),
                          Options(Some("POST"), Some(stringify(p.data)))))
    case Delete =>
      Success(HttpRequest(ItemUrl(apiUrl, resource, p.id), Options(Some("DELETE"), None)))
    case _ =>
      Failure(UnsupportedType(UnsupportedMessage(verb)))
  }

  /** `{ ...params.data, id: json.id }`. */
  function CreatedRecord(data: Json, json: Json): (r: Result<Json, Error>)
    ensures r.Failure? <==> json.JNull? || json.JUndefined?
    ensures r.Failure? ==> r.error == TypeError
    ensures r.Success? ==> r.value.JObject? && Lookup(r.value.fields, "id") == Some(Member(json, "id"))
  {
    SetLookup(Spread([], SpreadSource(data)), "id", Member(json, "id"), "id");
    if json.JNull? || json.JUndefined? then Failure(TypeError)
    else Success(JObject(Set(Spread([], SpreadSource(data)), "id", Member(json, "id"))))
  }

  /** `convertHTTPResponseToREST(response, type, resource, params)`. */
  function ConvertResponse(response: HttpResponse, verb: Verb, resource: string, p: Params)
    : (r: Result<Envelope, Error>)
    ensures r.Success? && (verb.GetList? || verb.GetManyReference?) ==> r.value.total.Some?
    ensures r.Success? && !(verb.GetList? || verb.GetManyReference?) ==> r.value.total.None?
  {
    match verb
    case GetList | GetManyReference =>
      if TotalCountHeader !in response.headers then
        Failure(MissingTotalCount(MissingTotalCountMessage))
      else
        Success(Envelope(response.json, Some(ParseInt(response.headers[TotalCountHeader]))))
    case Create =>
      (match CreatedRecord(p.data, response.json)
       case Success(record) => Success(Envelope(record, None))
       case Failure(e) => Failure(e))
    case _ =>
      Success(Envelope(response.json, None))
  }

  /** The result of a call, with the HTTP requests it handed to the HTTP client. */
  datatype Outcome = Outcome(result: Result<Envelope, Error>, sent: seq<HttpRequest>)

  /** `request(type, resource, params)`: convert, call the HTTP client once, convert back. */
  function Request(c: Config, verb: Verb, resource: string, p: Params): (o: Outcome)
    ensures |o.sent| == if Supported(verb) then 1 else 0
    ensures !Supported(verb) ==> o.result == Failure(UnsupportedType(UnsupportedMessage(verb)))
    ensures Supported(verb) ==>
      Success(o.sent[0]) == ConvertRequest(c.apiUrl, c.stringify, verb, resource, p)
    ensures Supported(verb) && c.httpClient(o.sent[0]).Failure? ==>
      o.result == Failure(Transport(c.httpClient(o.sent[0]).error))
    ensures Supported(verb) && c.httpClient(o.sent[0]).Success? ==>
      o.result == ConvertResponse(c.httpClient(o.sent[0]).value, verb, resource, p)
  {
    match ConvertRequest(c.apiUrl, c.stringify, verb, resource, p)
    case Failure(e) => Outcome(Failure(e), [])
    case Success(req) =>
      var result :=
        match c.httpClient(req)
        case Failure(reason) => Failure(Transport(reason))
        case Success(response) => ConvertResponse(response, verb, resource, p);
      Outcome(result, [req])
  }

  /** One GET_ONE of the GET_MANY fan-out. */
  function ItemRequest(c: Config, resource: string, id: Scalar): (o: Outcome)
    ensures o.sent == [HttpRequest(ItemUrl(c.apiUrl, resource, id), Options(None, None))]
    ensures c.httpClient(o.sent[0]).Failure? ==>
      o.result == Failure(Transport(c.httpClient(o.sent[0]).error))
    ensures c.httpClient(o.sent[0]).Success? ==>
      o.result == Success(Envelope(c.httpClient(o.sent[0]).value.json, None))
  {
    Request(c, GetOne, resource, IdOnly(id))
  }

  /** `Promise.all(ids.map(id => request(GET_ONE, resource, { id })))` followed by
      `{ data: responses.map(r => r.data) }`. Every request is issued before any
      response is awaited; the call fails when any of them fails. */
  function FanOut(c: Config, resource: string, ids: seq<Scalar>): (o: Outcome)
    ensures |o.sent| == |ids|
    ensures forall i :: 0 <= i < |ids| ==>
      o.sent[i] == HttpRequest(ItemUrl(c.apiUrl, resource, ids[i]), Options(None, None))
    ensures o.result.Success? <==>
      forall i :: 0 <= i < |ids| ==> ItemRequest(c, resource, ids[i]).result.Success?
    ensures o.result.Success? ==>
      && o.result.value.total.None?
      && o.result.value.data.JArray?
      && |o.result.value.data.items| == |ids|
      && forall i :: 0 <= i < |ids| ==>
           o.result.value.data.items[i] == ItemRequest(c, resource, ids[i]).result.value.data
    ensures o.result.Failure? ==>
      exists i :: 0 <= i < |ids| && ItemRequest(c, resource, ids[i]).result == Failure(o.result.error)
    decreases |ids|
  {
    if ids == [] then Outcome(Success(Envelope(JArray([]), None)), [])
    else
      var first := ItemRequest(c, resource, ids[0]);
      var rest := FanOut(c, resource, ids[1..]);
      var result :=
        if first.result.Failure? then Failure(first.result.error)
        else if rest.result.Failure? then Failure(rest.result.error)
        else Success(Envelope(JArray([first.result.value.data] + rest.result.value.data.items), None));
      Outcome(result, first.sent + rest.sent)
  }

  /** The function `restClient(apiUrl, httpClient)` returns, applied to a request-type
      string: `GET_MANY` is fanned out, every other type goes through `request`. */
  function Dispatch(c: Config, typ: string, resource: string, p: Params): (o: Outcome)
    ensures typ == Name(GetMany) ==> |o.sent| == |p.ids|
    ensures typ == Name(GetMany) ==> forall i :: 0 <= i < |p.ids| ==>
      o.sent[i] == HttpRequest(ItemUrl(c.apiUrl, resource, p.ids[i]), Options(None, None))
    ensures typ != Name(GetMany) ==> o == Request(c, VerbOf(typ), resource, p)
  {
    var verb := VerbOf(typ);
    if verb == GetMany then FanOut(c, resource, p.ids) else Request(c, verb, resource, p)
  }
}
