# api-client-admin-on-rest: the REST data provider, in Dafny

This project models `src/client.ts` of api-client-admin-on-rest. That file is an
admin-on-rest data provider. `restClient(apiUrl, httpClient)` returns a function of a
request type (`GET_LIST`, `GET_ONE`, `GET_MANY`, `GET_MANY_REFERENCE`, `CREATE`, `UPDATE`,
`DELETE`, …), a resource name and request parameters. That function:

- translates the call into an HTTP request for a REST dialect built on `sort`, `skip`
  and `limit` (`convertRESTRequestToHTTP`);
- hands the request to the HTTP client (`request`);
- turns the response back into `{ data, total }` (`convertHTTPResponseToREST`);
- answers `GET_MANY` by issuing one `GET_ONE` per id and collecting their data in the
  order of the ids.

The source is pure, so the model is made of datatypes, functions and lemmas:

- `wrappers.dfy` (`Wrappers`): `Option` and `Result`.
- `decimal.dfy` (`Decimal`): how JavaScript writes a whole number below 10^21 in a
  template or concatenation, and `parseInt(s, 10)` on integers, with the round trip
  between them. Numbers are unbounded integers; see "Left out" for the limits of
  JavaScript numbers.
- `js_object.dfy` (`JsObject`): a JavaScript object as an ordered list of named
  properties. Assigning a property (`o[k] = v`, a computed key in a literal) replaces
  the value in place, or appends the name when it is new. Object spread (`{...o, ...src}`)
  is a sequence of such assignments.
- `query_string.dfy` (`QueryString`): the `k=v` segments of a list of string pairs
  joined with `&` (the `.map(...).join('&')` of `queryParameters`), a reference reader
  of such strings, and the proof that the reader recovers the pairs when no name or
  value holds a separator. Reading the object's names and values and writing the values
  as strings (`Object.keys(query)`, `query[q]`) is `RestClient.Rendered`.
- `rest_client.dfy` (`RestClient`): request types, parameters, the two converters,
  `request`, and the dispatcher with its `GET_MANY` fan-out.
- `rest_client_properties.dfy` (`RestClientProperties`): the properties of the data
  provider, including the concrete URLs for sample calls.

The HTTP client and `JSON.stringify` are fields of `Config`, as function values the model
knows nothing about. A call's `Outcome` holds both its result and the list of requests it
handed to the HTTP client. That makes it possible to state that an unsupported type sends
nothing and that `GET_MANY` sends one `GET_ONE` per id.

A thrown exception and a rejected promise are both a `Failure`. The errors are:

- `UnsupportedType(message)`: the converter has no case for the type;
- `MissingTotalCount(message)`: a list response lacks `x-total-count`;
- `TypeError`: a `CREATE` response body is `null` or `undefined`, so `json.id` throws;
- `Transport(reason)`: the HTTP client rejected.

The documentation comment at `src/client.ts:14-19` describes another dialect: `range`,
`filter={ids:…}`, and a `POST` to `/posts/123`. The model follows the code, which sends
`sort`/`skip`/`limit`, answers `GET_MANY` with one GET per id, and posts a `CREATE` to the
collection URL.

## Model

| member | source | states |
|---|---|---|
| RestClient.VerbOf | src/client.ts:31-75 | the switch compares the type string with the constants; the verb denoted by a string has that string as its name and uses `Other` only for a string that is no constant |
| RestClientProperties.VerbOfName | src/client.ts:31-75 | every verb is recovered from its string value |
| RestClient.SortValue | src/client.ts:36 | the sort value is the bare field exactly when the order is `ASC`; any other order, `DESC` included, gives `-` + field |
| RestClient.ListQuery | src/client.ts:35-40 | the list query starts with the names `sort`, `skip`, `limit`, in that order, whatever the filter |
| RestClient.ReferenceQuery | src/client.ts:47-53 | in the reference query the target name maps to the id, whatever the filter holds |
| JsObject.Spread | src/client.ts:39 | a spread keeps every name of the target in its place |
| RestClientProperties.ListBaseLookups | src/client.ts:35-38 | the query record holds `sort` = sort value, `skip` = (page-1)*perPage, `limit` = perPage, and no other name |
| RestClientProperties.ListQueryKeys | src/client.ts:35-40 | the list query's names are `sort`, `skip`, `limit`, then the filter's new names in the filter's order; no name repeats |
| RestClientProperties.ListQueryLookup | src/client.ts:35-40 | the spread filter overrides the list property of the same name |
| RestClientProperties.ListPagination | src/client.ts:35-40 | unless the filter overrides them, `sort`, `skip` = (page-1)*perPage and `limit` = perPage hold, with no bounds check; every other name comes from the filter |
| RestClientProperties.FirstPage | src/client.ts:37 | page 1 gives `skip` = 0 |
| RestClientProperties.ReferenceQueryShape | src/client.ts:47-53 | `GET_MANY_REFERENCE` sets `query[target] = id` last: that name maps to the id, keeps its place when already present, is appended otherwise, and nothing else changes |
| RestClient.QueryParameters | src/client.ts:4-6 | the query string is empty exactly when the query has no property |
| RestClient.Rendered | src/client.ts:5 | no contract: `Object.keys(query)` with `query[q]` written as a string, in property order; `ListQueryDecodes` and `ReferenceQueryDecodes` prove what the string reads back as |
| RestClient.Render | src/client.ts:5 | a string value is written as it is, and an integer value is written so that `parseInt` reads back that integer |
| QueryString.Join | src/client.ts:5 | `.join(sep)` starts with the first part; `SplitJoin` proves that splitting undoes it |
| QueryString.Encode | src/client.ts:5 | the `k=v&…` string is empty exactly when there are no pairs, and starts with the first pair's segment; `DecodeEncode` proves the read-back |
| RestClientProperties.ListQueryDecodes | src/client.ts:4-6 | when no filter name holds `&` or `=`, and no filter value and no sort field holds `&`, the list query string reads back as exactly the rendered query, in order |
| RestClientProperties.ReferenceQueryDecodes | src/client.ts:4-6 | the same for the `GET_MANY_REFERENCE` query, when the target and id are plain too |
| RestClient.ConvertRequest | src/client.ts:28-78 | the converter succeeds exactly for `GET_LIST`, `GET_MANY_REFERENCE`, `GET_ONE`, `UPDATE`, `CREATE` and `DELETE`; otherwise it fails with `Unsupported fetch action type <type>`; every URL starts with `apiUrl/resource` |
| RestClientProperties.ListRequests | src/client.ts:41-54 | both list verbs send a GET without a body to `apiUrl/resource?` + the encoded query |
| RestClientProperties.UnfilteredListUrl | src/client.ts:35-41 | without a filter the list URL is exactly `apiUrl/resource?sort=<sort>&skip=<(page-1)*perPage>&limit=<perPage>` |
| RestClientProperties.ListExampleAscending | src/client.ts:32-42 | page 1 of 25 sorted by `title`, `ASC`, is `http://my.api.url/posts?sort=title&skip=0&limit=25` |
| RestClientProperties.ListExampleDescending | src/client.ts:32-42 | the same list sorted `DESC` is `http://my.api.url/posts?sort=-title&skip=0&limit=25` |
| RestClientProperties.ItemRequests | src/client.ts:57-73 | `GET_ONE`, `UPDATE` and `DELETE` address `apiUrl/resource/id`; `GET_ONE` sets neither method nor body, `UPDATE` sends `PUT` with the serialised data, `DELETE` sends `DELETE` without a body |
| RestClientProperties.ItemExample | src/client.ts:57-73 | `GET_ONE` and `DELETE` of post 123 address `http://my.api.url/posts/123` |
| RestClientProperties.ItemUrlInjective | src/client.ts:58 | two item URLs of a resource are equal exactly when the ids are written the same; distinct integer ids, or distinct string ids, give distinct URLs |
| RestClientProperties.CreateRequest | src/client.ts:65-69 | `CREATE` sends `POST` with the serialised data to `apiUrl/resource`, with no id |
| RestClientProperties.UnsupportedVerbs | src/client.ts:74-75 | `GET_MANY` given to the converter, `UPDATE_MANY`, `DELETE_MANY` and any other string fail with the unsupported-type message, and no request reaches the HTTP client |
| RestClientProperties.UnsupportedExample | src/client.ts:75 | type `PATCH` fails with `Unsupported fetch action type PATCH` |
| RestClient.ConvertResponse | src/client.ts:87-104 | a successful list response carries a total, every other one does not |
| RestClientProperties.ListResponses | src/client.ts:90-98 | a list response without `x-total-count` fails with the explanatory message; with it, the data is the body and the total `parseInt` of the header |
| RestClientProperties.ListResponseOfInteger | src/client.ts:95-98 | a count header holding a decimal integer, possibly followed by a non-digit, gives that integer as the total |
| RestClientProperties.ListResponseExample | src/client.ts:95-98 | a body of three records with `x-total-count: 42` gives those records and total 42 |
| RestClientProperties.CreateResponse | src/client.ts:99-100 | `CREATE` returns the submitted data with `id` set to the body's id: an existing `id` keeps its place, otherwise it comes last, every other property is unchanged; a null or undefined body fails |
| RestClient.Member | src/client.ts:100 | `json.id` reads the value stored under the name when the body is an object holding it, and gives `undefined` otherwise |
| RestClient.SpreadSource | src/client.ts:100 | no contract: the properties `...params.data` copies, none when the data is not an object; `CreatedFields` proves that spreading them into `{}` copies them unchanged |
| RestClient.CreatedRecord | src/client.ts:100 | reading `json.id` fails with a TypeError exactly when the body is null or undefined; otherwise the record is an object whose `id` is the body's id |
| RestClientProperties.CreatedFields | src/client.ts:100 | spreading submitted data into `{}` copies it as it is before `id` is set |
| RestClientProperties.CreateExample | src/client.ts:100 | `{title: "x"}` answered with `{id: 7}` gives `{title: "x", id: 7}` |
| RestClientProperties.CreateDistinctIds | src/client.ts:100 | two answers with different ids give different records |
| RestClientProperties.OtherResponses | src/client.ts:101-102 | every verb other than the list verbs and `CREATE` returns the body as it is, with no total |
| RestClient.Request | src/client.ts:106-110 | a supported type calls the HTTP client exactly once, with the converted request, and the result is the converted response, or the client's rejection; an unsupported type sends nothing and fails |
| RestClient.Dispatch | src/client.ts:118-128 | on `GET_MANY` one item request per id, in order; on any other type string exactly `request` with the verb that string names |
| RestClientProperties.DispatchOther | src/client.ts:125-127 | every type constant other than `GET_MANY` goes through `request` with its own verb |
| RestClientProperties.DispatchUnsupported | src/client.ts:74-75 | a type string naming none of the supported constants fails with `Unsupported fetch action type <type>` and sends nothing |
| RestClientProperties.GetOneReadsOnlyId | src/client.ts:57-59 | `GET_ONE` depends on nothing of its parameters but the id, so the `{ id }` record of the fan-out is as good as the caller's |
| RestClient.ItemRequest | src/client.ts:121 | one GET_ONE of the fan-out, `request(GET_ONE, resource, { id })`, sends the item URL without method or body, and its data is the response body or the client's rejection |
| RestClient.IdOnly | src/client.ts:121 | no contract: the record `{ id }`; `GetOneReadsOnlyId` proves GET_ONE reads nothing of a record but its id |
| RestClient.FanOut | src/client.ts:119-124 | one GET_ONE per id, in the order of the ids; success exactly when every one succeeds, and then the data are their data in the order of the ids, without total; otherwise the error of one of them |
| RestClientProperties.GetManyResult | src/client.ts:118-124 | the dispatcher answers `GET_MANY` with the fan-out: one request per id, all-or-nothing, the response bodies in the order of the ids |
| JsObject.Keys | src/client.ts:5 | `Object.keys` has one name per property, in property order |
| JsObject.IndexOf | src/client.ts:52 | the place of a property is its first occurrence, or -1 when the name is absent |
| JsObject.Lookup | src/client.ts:5 | reading a property finds a value exactly when the name is present, and that value is stored under the name |
| JsObject.Set | src/client.ts:52 | assigning a new name appends it; assigning an existing name keeps the names and their order |
| JsObject.SetLookup | src/client.ts:52 | after `o[k] = v`, `o[k]` is `v` and every other property reads as before |
| JsObject.SetInPlace | src/client.ts:52 | assigning an existing name replaces that one entry and leaves the others |
| JsObject.SetUnique | src/client.ts:52 | assignment keeps property names unique |
| JsObject.SpreadKeys | src/client.ts:39 | a spread keeps the target's names and appends the source's new names in source order |
| JsObject.SpreadLookup | src/client.ts:39 | after a spread a name reads from the source when the source has it, from the target otherwise |
| JsObject.SpreadUnique | src/client.ts:39 | a spread keeps property names unique |
| JsObject.SpreadEntries | src/client.ts:39 | every property after a spread comes from the target or the source |
| JsObject.SpreadDisjoint | src/client.ts:100 | spreading an object whose names the target lacks appends its properties in order |
| QueryString.DecodeEncode | src/client.ts:4-6 | reading the joined string back gives the pairs, when no name holds `&` or `=` and no value holds `&` |
| QueryString.EncodeIsAmbiguous | src/client.ts:5 | values are not escaped: `a=b&c=d` comes from one pair and from two |
| QueryString.SplitJoin | src/client.ts:5 | splitting the `&`-joined segments gives them back when none holds `&` |
| Decimal.IntToString | src/client.ts:58 | an integer is written as a '-' exactly when it is negative, followed by digits; `ParseIntOfIntToString` and `IntToStringInjective` prove its read-back and injectivity |
| Decimal.NatToString | src/client.ts:37-38 | a number is written as a non-empty string of digits with no leading zero |
| Decimal.DigitsValueOfNatToString | src/client.ts:37-38 | the digits written for a number have that number as value |
| Decimal.ParseInt | src/client.ts:97 | `parseInt` gives `NaN` exactly when no digit follows the optional sign |
| Decimal.ParseIntOfIntToString | src/client.ts:97 | `parseInt` of a written integer, possibly followed by a non-digit, is that integer |
| Decimal.IntToStringInjective | src/client.ts:58 | distinct integers are written differently |

## Left out

- The HTTP transport (`fetchJson`, the `httpClient` argument): it is a foreign call. It is a function field of `Config` that may fail.
- The timing of `Promise.all` and of the promise chains: the model keeps only the all-or-nothing, order-preserving result. Every GET_ONE of a fan-out is sent, even when one fails.
- RestClient.FanOut: promises only that a failure is the error of SOME failing item. Which rejection `Promise.all` reports depends on timing; the model takes the first in the order of the ids.
- The difference between an exception thrown synchronously by the converter and a rejected promise: both are a `Failure`.
- `JSON.stringify` of the data: it is an unknown function field of `Config`.
- JavaScript's conversion of arbitrary filter values to strings: a query value is a string or an integer written in decimal. Objects, arrays, booleans, floats, `null` and `undefined` are not modelled.
- Integer-like property names, which JavaScript engines list first: the model keeps the order of insertion for every name.
- Spreading a string or an array into the `CREATE` record: only objects contribute properties; every other value contributes none.
- The differing parameter records the framework passes per type: `Params` is one record with every field any type reads, and each type reads only its own.
- The request-type constants come from `admin-on-rest/lib/rest/types`, which is not part of this model. Their values are taken to be their own names (`GET_LIST` is `"GET_LIST"`, and so on).
- Decimal.ParseInt: skips no leading white space and reads no fraction or exponent. Floating-point pagination is not modelled. Page numbers and totals are integers.
- JavaScript numbers are doubles; the model's are unbounded integers. `(page-1)*perPage` and `parseInt` round above 2^53 (`parseInt("9007199254740993")` is 9007199254740992), and a number of 10^21 or more is written in exponent form (`1e+21`). `IntToString` and `ParseInt` are exact for every integer.
- Fractional numbers anywhere: `JNumber` holds an integer, so a response body with a fractional number, and fractional page numbers, are not modelled.
- Missing request parameters: `Params` always holds every field, so the TypeError the source throws when `params.pagination` or `params.sort` is absent (src/client.ts:33-34, 45-46) or `params.ids` is absent for `GET_MANY` (src/client.ts:121) is not modelled.
- The case-insensitive header lookup of `Headers`: the headers are a map from lower-case names.
- `src/types/react-admin.d.ts`: it declares framework constants only and has no behaviour.
