/** Properties of the request and response translation and of the dispatcher. */
module RestClientProperties {
  import opened Wrappers
  import opened Decimal
  import opened JsObject
  import opened QueryString
  import opened RestClient

  // ---------------------------------------------------------------- request types

  /** Every well-formed verb is recovered from its string value. */
  lemma VerbOfName(v: Verb)
    requires WellFormed(v)
    ensures VerbOf(Name(v)) == v
  {
  }

  // ---------------------------------------------------------------- list queries

  /** The list query's names: `sort`, `skip` and `limit` first, then the filter's
      new names in the filter's order; a filter name equal to one of the three keeps
      that name's place. */
  lemma ListQueryKeys(p: Params)
    ensures Keys(ListQuery(p)) == ListBaseKeys + NewKeys(ListBaseKeys, Keys(p.filter))
    ensures UniqueKeys(ListQuery(p))
  {
    var base := ListBase(p);
    assert Keys(base) == ListBaseKeys;
    SpreadKeys(base, p.filter);
    SpreadUnique(base, p.filter);
  }

  /** A filter property wins over the list property of the same name. */
  lemma ListQueryLookup(p: Params, k: string)
    requires UniqueKeys(p.filter)
    ensures Lookup(ListQuery(p), k)
      == if k in Keys(p.filter) then Lookup(p.filter, k) else Lookup(ListBase(p), k)
  {
    SpreadLookup(ListBase(p), p.filter, k);
  }

  lemma ListBaseLookups(p: Params)
    ensures Lookup(ListBase(p), "sort") == Some(Text(SortValue(p.sort)))
    ensures Lookup(ListBase(p), "skip") == Some(Integer((p.pagination.page - 1) * p.pagination.perPage))
    ensures Lookup(ListBase(p), "limit") == Some(Integer(p.pagination.perPage))
    ensures forall k :: k !in ListBaseKeys ==> Lookup(ListBase(p), k).None?
  {
    var base := ListBase(p);
    assert Keys(base) == ListBaseKeys;
    assert IndexOf(base, "sort") == 0;
    assert IndexOf(base, "skip") == 1;
    assert IndexOf(base, "limit") == 2;
  }

  /** Unless the filter overrides them, `sort` is the sort value and pagination becomes
      `skip = (page-1)*perPage`, `limit = perPage`, without bounds checks; the first page
      starts at `skip = 0` (see FirstPage). */
  lemma ListPagination(p: Params)
    requires UniqueKeys(p.filter)
    ensures "sort" !in Keys(p.filter) ==>
      Lookup(ListQuery(p), "sort") == Some(Text(SortValue(p.sort)))
    ensures "skip" !in Keys(p.filter) ==>
      Lookup(ListQuery(p), "skip") == Some(Integer((p.pagination.page - 1) * p.pagination.perPage))
    ensures "limit" !in Keys(p.filter) ==>
      Lookup(ListQuery(p), "limit") == Some(Integer(p.pagination.perPage))
    ensures forall k :: k !in ListBaseKeys && k !in Keys(p.filter) ==> Lookup(ListQuery(p), k).None?
  {
    ListBaseLookups(p);
    ListQueryLookup(p, "sort");
    ListQueryLookup(p, "skip");
    ListQueryLookup(p, "limit");
    forall k | k !in ListBaseKeys && k !in Keys(p.filter) ensures Lookup(ListQuery(p), k).None? {
      ListQueryLookup(p, k);
    }
  }

  /** The first page skips nothing. */
  lemma FirstPage(p: Params)
    requires UniqueKeys(p.filter) && "skip" !in Keys(p.filter) && p.pagination.page == 1
    ensures Lookup(ListQuery(p), "skip") == Some(Integer(0))
  {
    var skip := (p.pagination.page - 1) * p.pagination.perPage;
    assert skip == 0;
    ListPagination(p);
  }

  /** The reference query is the list query with `target` set to the id: an existing
      property of that name keeps its place and takes the id, otherwise the name is
      appended last; nothing else changes. */
  lemma ReferenceQueryShape(p: Params)
    ensures Lookup(ReferenceQuery(p), p.target) == Some(p.id)
    ensures forall k :: k != p.target ==> Lookup(ReferenceQuery(p), k) == Lookup(ListQuery(p), k)
    ensures p.target in Keys(ListQuery(p)) ==> Keys(ReferenceQuery(p)) == Keys(ListQuery(p))
    ensures p.target !in Keys(ListQuery(p)) ==> ReferenceQuery(p) == ListQuery(p) + [(p.target, p.id)]
  {
    forall k ensures Lookup(ReferenceQuery(p), k) == if k == p.target then Some(p.id) else Lookup(ListQuery(p), k) {
      SetLookup(ListQuery(p), p.target, p.id, k);
    }
  }

  /** A query property that survives the string encoding. */
  predicate PlainEntry(e: (string, Scalar)) {
    Plain((e.0, Render(e.1)))
  }

  lemma NoAmpersandInIntToString(i: int)
    ensures '&' !in IntToString(i)
  {
    var digits := NatToString(if i < 0 then -i else i);
    assert forall j :: 0 <= j < |digits| ==> digits[j] != '&';
  }

  lemma {:induction false} AllPlainRendered(q: Object<Scalar>)
    requires forall e :: e in q ==> PlainEntry(e)
    ensures forall i :: 0 <= i < |Rendered(q)| ==> Plain(Rendered(q)[i])
  {
    forall i | 0 <= i < |q| ensures Plain(Rendered(q)[i]) {
      assert q[i] in q;
    }
  }

  lemma ListBasePlain(p: Params)
    requires '&' !in p.sort.field
    ensures forall e :: e in ListBase(p) ==> PlainEntry(e)
  {
    NoAmpersandInIntToString((p.pagination.page - 1) * p.pagination.perPage);
    NoAmpersandInIntToString(p.pagination.perPage);
    assert '&' !in SortValue(p.sort) by {
      assert SortValue(p.sort) == (if p.sort.order == "ASC" then "" else "-") + p.sort.field;
    }
  }

  /** When no filter name holds '&' or '=', no filter value and no sort field holds '&',
      the query string of a GET_LIST reads back as exactly the list query, in order. */
  lemma ListQueryDecodes(p: Params)
    requires '&' !in p.sort.field
    requires forall e :: e in p.filter ==> PlainEntry(e)
    ensures Decode(QueryParameters(ListQuery(p))) == Rendered(ListQuery(p))
  {
    ListBasePlain(p);
    SpreadEntries(ListBase(p), p.filter);
    AllPlainRendered(ListQuery(p));
    DecodeEncode(Rendered(ListQuery(p)));
  }

  /** The same for GET_MANY_REFERENCE, when the target name and the id are plain too. */
  lemma ReferenceQueryDecodes(p: Params)
    requires '&' !in p.sort.field
    requires forall e :: e in p.filter ==> PlainEntry(e)
    requires PlainEntry((p.target, p.id))
    ensures Decode(QueryParameters(ReferenceQuery(p))) == Rendered(ReferenceQuery(p))
  {
    ListBasePlain(p);
    SpreadEntries(ListBase(p), p.filter);
    SetEntries(ListQuery(p), p.target, p.id);
    AllPlainRendered(ReferenceQuery(p));
    DecodeEncode(Rendered(ReferenceQuery(p)));
  }

  // ---------------------------------------------------------------- requests

  /** Both list verbs send a GET, without a body, to the collection URL followed by
      `?` and the encoded query. */
  lemma ListRequests(apiUrl: string, stringify: Json -> string, resource: string, p: Params)
    ensures ConvertRequest(apiUrl, stringify, GetList, resource, p)
      == Success(HttpRequest(apiUrl + "/" + resource + "?" + QueryParameters(ListQuery(p)),
                             Options(None, None)))
    ensures ConvertRequest(apiUrl, stringify, GetManyReference, resource, p)
      == Success(HttpRequest(apiUrl + "/" + resource + "?" + QueryParameters(ReferenceQuery(p)),
                             Options(None, None)))
  {
  }

  /** Without a filter the list URL is exactly
      `apiUrl/resource?sort=<sort>&skip=<(page-1)*perPage>&limit=<perPage>`. */
  lemma UnfilteredListUrl(apiUrl: string, stringify: Json -> string, resource: string, p: Params)
    requires p.filter == []
    ensures ConvertRequest(apiUrl, stringify, GetList, resource, p)
      == Success(HttpRequest(
           apiUrl + "/" + resource + "?sort=" + SortValue(p.sort)
           + "&skip=" + IntToString((p.pagination.page - 1) * p.pagination.perPage)
           + "&limit=" + IntToString(p.pagination.perPage),
           Options(None, None)))
  {
    var skip := IntToString((p.pagination.page - 1) * p.pagination.perPage);
    var limit := IntToString(p.pagination.perPage);
    var pairs := [("sort", SortValue(p.sort)), ("skip", skip), ("limit", limit)];
    assert ListQuery(p) == ListBase(p);
    assert Rendered(ListBase(p)) == pairs;
    EncodeThree(("sort", SortValue(p.sort)), ("skip", skip), ("limit", limit));
    UrlConcat(apiUrl + "/" + resource, SortValue(p.sort), skip, limit);
  }

  lemma EncodeThree(a: (string, string), b: (string, string), c: (string, string))
    ensures Encode([a, b, c]) == Segment(a) + "&" + (Segment(b) + "&" + Segment(c))
  {
    var pairs := [a, b, c];
    var segs := seq(3, i requires 0 <= i < 3 => Segment(pairs[i]));
    assert segs == [Segment(a), Segment(b), Segment(c)];
    assert segs[1..][1..] == [Segment(c)];
    assert Join([Segment(c)], '&') == Segment(c);
    assert Join(segs[1..], '&') == Segment(b) + ['&'] + Segment(c);
    assert Join(segs, '&') == Segment(a) + ['&'] + (Segment(b) + ['&'] + Segment(c));
  }

  lemma UrlConcat(base: string, s: string, k: string, l: string)
    ensures base + "?" + (("sort" + "=" + s) + "&" + (("skip" + "=" + k) + "&" + ("limit" + "=" + l)))
      == base + "?sort=" + s + "&skip=" + k + "&limit=" + l
  {
  }

  lemma DecimalExamples()
    ensures IntToString(0) == "0" && IntToString(25) == "25"
  {
    assert DigitChar(0) == '0';
    assert DigitChar(2) == '2' && NatToString(2) == "2";
    assert DigitChar(5) == '5';
  }

  /** The first page of an unfiltered ascending list of 25 posts. */
  lemma ListExampleAscending(stringify: Json -> string)
    ensures var p := Params(Pagination(1, 25), SortOrder("title", "ASC"), [], "", Integer(0), [], JUndefined);
      ConvertRequest("http://my.api.url", stringify, GetList, "posts", p)
        == Success(HttpRequest("http://my.api.url/posts?sort=title&skip=0&limit=25", Options(None, None)))
  {
    var p := Params(Pagination(1, 25), SortOrder("title", "ASC"), [], "", Integer(0), [], JUndefined);
    UnfilteredListUrl("http://my.api.url", stringify, "posts", p);
    DecimalExamples();
    assert SortValue(p.sort) == "title";
    AscendingUrlText();
  }

  lemma AscendingUrlText()
    ensures "http://my.api.url" + "/" + "posts" + "?sort=" + "title" + "&skip=" + "0" + "&limit=" + "25"
      == "http://my.api.url/posts?sort=title&skip=0&limit=25"
  {
  }

  /** The same list sorted in descending order. */
  lemma ListExampleDescending(stringify: Json -> string)
    ensures var p := Params(Pagination(1, 25), SortOrder("title", "DESC"), [], "", Integer(0), [], JUndefined);
      ConvertRequest("http://my.api.url", stringify, GetList, "posts", p)
        == Success(HttpRequest("http://my.api.url/posts?sort=-title&skip=0&limit=25", Options(None, None)))
  {
    var p := Params(Pagination(1, 25), SortOrder("title", "DESC"), [], "", Integer(0), [], JUndefined);
    UnfilteredListUrl("http://my.api.url", stringify, "posts", p);
    DecimalExamples();
    assert SortValue(p.sort) == "-title";
    DescendingUrlText();
  }

  lemma DescendingUrlText()
    ensures "http://my.api.url" + "/" + "posts" + "?sort=" + "-title" + "&skip=" + "0" + "&limit=" + "25"
      == "http://my.api.url/posts?sort=-title&skip=0&limit=25"
  {
  }

  /** GET_ONE, UPDATE and DELETE address `apiUrl/resource/id`; GET_ONE sets neither
      method nor body, UPDATE sends a PUT with the serialised data, DELETE a DELETE
      without a body. */
  lemma ItemRequests(apiUrl: string, stringify: Json -> string, resource: string, p: Params)
    ensures ConvertRequest(apiUrl, stringify, GetOne, resource, p)
      == Success(HttpRequest(apiUrl + "/" + resource + "/" + Render(p.id), Options(None, None)))
    ensures ConvertRequest(apiUrl, stringify, Update, resource, p)
      == Success(HttpRequest(apiUrl + "/" + resource + "/" + Render(p.id),
                             Options(Some("PUT"), Some(stringify(p.data)))))
    ensures ConvertRequest(apiUrl, stringify, Delete, resource, p)
      == Success(HttpRequest(apiUrl + "/" + resource + "/" + Render(p.id), Options(Some("DELETE"), None)))
  {
  }

  /** GET_ONE and DELETE of post 123. */
  lemma ItemExample(stringify: Json -> string, p: Params)
    requires p.id == Integer(123)
    ensures ConvertRequest("http://my.api.url", stringify, GetOne, "posts", p)
      == Success(HttpRequest("http://my.api.url/posts/123", Options(None, None)))
    ensures ConvertRequest("http://my.api.url", stringify, Delete, "posts", p)
      == Success(HttpRequest("http://my.api.url/posts/123", Options(Some("DELETE"), None)))
  {
    assert IntToString(123) == "123" by {
      assert DigitChar(1) == '1' && NatToString(1) == "1";
      assert DigitChar(2) == '2' && NatToString(12) == "12";
      assert DigitChar(3) == '3';
    }
    ItemUrlText();
  }

  lemma ItemUrlText()
    ensures "http://my.api.url" + "/" + "posts" + "/" + "123" == "http://my.api.url/posts/123"
  {
  }

  /** Item URLs of one resource differ exactly when the ids render differently, so
      distinct integer ids, or distinct string ids, address distinct items. */
  lemma ItemUrlInjective(apiUrl: string, resource: string, x: Scalar, y: Scalar)
    ensures ItemUrl(apiUrl, resource, x) == ItemUrl(apiUrl, resource, y) <==> Render(x) == Render(y)
    ensures x.Integer? && y.Integer? && x != y ==> ItemUrl(apiUrl, resource, x) != ItemUrl(apiUrl, resource, y)
    ensures x.Text? && y.Text? && x != y ==> ItemUrl(apiUrl, resource, x) != ItemUrl(apiUrl, resource, y)
  {
    var prefix := apiUrl + "/" + resource + "/";
    if ItemUrl(apiUrl, resource, x) == ItemUrl(apiUrl, resource, y) {
      assert Render(x) == ItemUrl(apiUrl, resource, x)[|prefix|..];
      assert Render(y) == ItemUrl(apiUrl, resource, y)[|prefix|..];
      if x.Integer? && y.Integer? {
        IntToStringInjective(x.value, y.value);
      }
    }
  }

  /** CREATE posts the serialised data to the collection URL, with no id in it. */
  lemma CreateRequest(apiUrl: string, stringify: Json -> string, resource: string, p: Params)
    ensures ConvertRequest(apiUrl, stringify, Create, resource, p)
      == Success(HttpRequest(apiUrl + "/" + resource, Options(Some("POST"), Some(stringify(p.data)))))
  {
  }

  /** A verb without a case, GET_MANY given to the converter included, fails with the
      unsupported-type message before any HTTP call, whatever the HTTP client. */
  lemma UnsupportedVerbs(c: Config, verb: Verb, resource: string, p: Params)
    requires verb.GetMany? || verb.UpdateMany? || verb.DeleteMany? || verb.Other?
    ensures Request(c, verb, resource, p)
      == Outcome(Failure(UnsupportedType("Unsupported fetch action type " + Name(verb))), [])
  {
  }

  /** The message names the request type that was passed in. */
  lemma UnsupportedExample(c: Config, p: Params)
    ensures Dispatch(c, "PATCH", "posts", p)
      == Outcome(Failure(UnsupportedType("Unsupported fetch action type PATCH")), [])
  {
    assert VerbOf("PATCH") == Other("PATCH");
    assert "Unsupported fetch action type " + "PATCH" == "Unsupported fetch action type PATCH";
  }

  // ---------------------------------------------------------------- responses

  /** A list response without the count header fails with the CORS explanation; with
      it, the body is the data and `parseInt` of the header the total. A header holding
      a decimal integer, possibly followed by a non-digit, gives that integer. */
  lemma ListResponses(response: HttpResponse, verb: Verb, resource: string, p: Params)
    requires verb.GetList? || verb.GetManyReference?
    ensures TotalCountHeader !in response.headers ==>
      ConvertResponse(response, verb, resource, p) == Failure(MissingTotalCount(MissingTotalCountMessage))
    ensures TotalCountHeader in response.headers ==>
      ConvertResponse(response, verb, resource, p)
        == Success(Envelope(response.json, Some(ParseInt(response.headers[TotalCountHeader]))))
  {
  }

  /** A count header holding a decimal integer, possibly followed by a non-digit, gives
      that integer as the total. */
  lemma ListResponseOfInteger(response: HttpResponse, verb: Verb, resource: string, p: Params,
                              n: int, t: string)
    requires verb.GetList? || verb.GetManyReference?
    requires TotalCountHeader in response.headers
    requires response.headers[TotalCountHeader] == IntToString(n) + t
    requires t == [] || !IsDigit(t[0])
    ensures ConvertResponse(response, verb, resource, p) == Success(Envelope(response.json, Some(Int(n))))
  {
    ParseIntOfIntToString(n, t);
  }

  /** A list response with `x-total-count: 42` and a three-element body. */
  lemma ListResponseExample(a: Json, b: Json, cc: Json, p: Params)
    ensures ConvertResponse(HttpResponse(map["x-total-count" := "42"], JArray([a, b, cc])), GetList, "posts", p)
      == Success(Envelope(JArray([a, b, cc]), Some(Int(42))))
  {
    assert IntToString(42) + [] == "42" by {
      assert NatToString(4) == "4";
      assert DigitChar(2) == '2';
    }
    ParseIntOfIntToString(42, []);
  }

  /** The record CREATE returns is the submitted data with `id` set to the body's id:
      an `id` already in the data keeps its place and takes the new value, otherwise it
      comes last; every other property is the submitted one. A null or undefined body
      has no id to read. */
  lemma CreateResponse(response: HttpResponse, resource: string, p: Params)
    requires UniqueKeys(SpreadSource(p.data))
    ensures response.json.JNull? || response.json.JUndefined? ==>
      ConvertResponse(response, Create, resource, p) == Failure(TypeError)
    ensures !(response.json.JNull? || response.json.JUndefined?) ==>
      var r := ConvertResponse(response, Create, resource, p);
      var src := SpreadSource(p.data);
      && r.Success? && r.value.total.None? && r.value.data.JObject?
      && UniqueKeys(r.value.data.fields)
      && Lookup(r.value.data.fields, "id") == Some(Member(response.json, "id"))
      && (forall k :: k != "id" ==> Lookup(r.value.data.fields, k) == Lookup(src, k))
      && Keys(r.value.data.fields) == if "id" in Keys(src) then Keys(src) else Keys(src) + ["id"]
  {
    if !(response.json.JNull? || response.json.JUndefined?) {
      CreatedFields(p.data, response.json);
      SetFacts(SpreadSource(p.data), "id", Member(response.json, "id"));
    }
  }

  /** Spreading an object with unique keys into `{}` copies it as it is. */
  lemma CreatedFields(data: Json, json: Json)
    requires UniqueKeys(SpreadSource(data))
    requires !(json.JNull? || json.JUndefined?)
    ensures CreatedRecord(data, json) == Success(JObject(Set(SpreadSource(data), "id", Member(json, "id"))))
  {
    SpreadDisjoint([], SpreadSource(data));
    assert Spread([], SpreadSource(data)) == SpreadSource(data);
  }

  /** The facts about one assignment `o[k] = v` that CREATE relies on. */
  lemma SetFacts(o: Object<Json>, k: string, v: Json)
    requires UniqueKeys(o)
    ensures UniqueKeys(Set(o, k, v))
    ensures Lookup(Set(o, k, v), k) == Some(v)
    ensures forall k' :: k' != k ==> Lookup(Set(o, k, v), k') == Lookup(o, k')
    ensures Keys(Set(o, k, v)) == if k in Keys(o) then Keys(o) else Keys(o) + [k]
  {
    SetUnique(o, k, v);
    SetLookup(o, k, v, k);
    forall k' | k' != k ensures Lookup(Set(o, k, v), k') == Lookup(o, k') {
      SetLookup(o, k, v, k');
    }
    if k !in Keys(o) {
      KeysConcat(o, [(k, v)]);
    }
  }

  /** `{title: "x"}` created with server response `{id: 7}` gives `{title: "x", id: 7}`. */
  lemma CreateExample(p: Params)
    requires p.data == JObject([("title", JString("x"))])
    ensures ConvertResponse(HttpResponse(map[], JObject([("id", JNumber(7))])), Create, "posts", p)
      == Success(Envelope(JObject([("title", JString("x")), ("id", JNumber(7))]), None))
  {
    var src := [("title", JString("x"))];
    assert Keys(src) == ["title"];
    assert UniqueKeys(src);
    var json := JObject([("id", JNumber(7))]);
    assert Lookup(json.fields, "id") == Some(JNumber(7));
    assert Member(json, "id") == JNumber(7);
    CreatedFields(p.data, json);
    assert "id" !in Keys(src);
    assert Set(src, "id", JNumber(7)) == src + [("id", JNumber(7))];
    assert src + [("id", JNumber(7))] == [("title", JString("x")), ("id", JNumber(7))];
    assert CreatedRecord(p.data, json) == Success(JObject([("title", JString("x")), ("id", JNumber(7))]));
  }

  /** The layer does not deduplicate: two CREATEs of the same data that the server
      answers with different ids give different records. */
  lemma CreateDistinctIds(r1: HttpResponse, r2: HttpResponse, resource: string, p: Params)
    requires UniqueKeys(SpreadSource(p.data))
    requires !(r1.json.JNull? || r1.json.JUndefined?) && !(r2.json.JNull? || r2.json.JUndefined?)
    requires Member(r1.json, "id") != Member(r2.json, "id")
    ensures ConvertResponse(r1, Create, resource, p) != ConvertResponse(r2, Create, resource, p)
  {
    CreateResponse(r1, resource, p);
    CreateResponse(r2, resource, p);
  }

  /** Every verb other than the list verbs and CREATE returns the body as it is. */
  lemma OtherResponses(response: HttpResponse, verb: Verb, resource: string, p: Params)
    requires !(verb.GetList? || verb.GetManyReference? || verb.Create?)
    ensures ConvertResponse(response, verb, resource, p) == Success(Envelope(response.json, None))
  {
  }

  // ---------------------------------------------------------------- dispatcher

  /** Every type string other than `GET_MANY` goes through `request` with the verb it
      names, so the constants reach their cases of the converter. */
  lemma DispatchOther(c: Config, verb: Verb, resource: string, p: Params)
    requires WellFormed(verb) && verb != GetMany
    ensures Dispatch(c, Name(verb), resource, p) == Request(c, verb, resource, p)
  {
    VerbOfName(verb);
  }

  /** A type string that names none of the supported constants, and is not `GET_MANY`,
      fails with `Unsupported fetch action type <type>` and sends nothing. */
  lemma DispatchUnsupported(c: Config, typ: string, resource: string, p: Params)
    requires !Supported(VerbOf(typ)) && typ != Name(GetMany)
    ensures Dispatch(c, typ, resource, p)
      == Outcome(Failure(UnsupportedType("Unsupported fetch action type " + typ)), [])
  {
  }

  /** GET_ONE reads nothing of its parameters but the id, so the `{ id }` record the
      fan-out builds behaves like any record with that id. */
  lemma GetOneReadsOnlyId(c: Config, resource: string, p: Params, q: Params)
    requires p.id == q.id
    ensures Request(c, GetOne, resource, p) == Request(c, GetOne, resource, q)
  {
  }

  /** GET_MANY issues one GET_ONE per id, in the order of the ids; it succeeds exactly
      when the HTTP client answers all of them, and then its data are the response
      bodies in the order of the ids, with no total; otherwise it fails with the
      rejection of one of them. */
  lemma GetManyResult(c: Config, resource: string, p: Params)
    ensures var o := Dispatch(c, "GET_MANY", resource, p);
      && |o.sent| == |p.ids|
      && (forall i :: 0 <= i < |p.ids| ==>
            o.sent[i] == HttpRequest(ItemUrl(c.apiUrl, resource, p.ids[i]), Options(None, None)))
      && (o.result.Success? <==> forall i :: 0 <= i < |p.ids| ==> c.httpClient(o.sent[i]).Success?)
      && (o.result.Success? ==>
            o.result.value == Envelope(JArray(seq(|p.ids|, i requires 0 <= i < |p.ids| => c.httpClient(o.sent[i]).value.json)), None))
      && (o.result.Failure? ==>
            exists i :: 0 <= i < |p.ids| && c.httpClient(o.sent[i]).Failure?
                        && o.result.error == Transport(c.httpClient(o.sent[i]).error))
  {
    var o := Dispatch(c, "GET_MANY", resource, p);
    if o.result.Success? {
      var items := seq(|p.ids|, i requires 0 <= i < |p.ids| => c.httpClient(o.sent[i]).value.json);
      assert o.result.value.data.items == items;
    }
  }
}
