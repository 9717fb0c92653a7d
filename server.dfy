/** The two HTTP handlers: how each request body is turned into the input
    of a flow, and how the flow's outcome becomes a status and a JSON
    reply. The flows themselves are passed in as functions. */
module Server {
  import opened Wrappers
  import opened JsValues
  import opened Text
  import opened Batches

  /** A status code and a JSON body. */
  datatype Response = Response(status: int, body: Json)

  const BadRequestMessage :=
    "Could not determine query string from body. pass {data: 'query'} or {query: 'query'}"

  /** `{ error: message }` */
  function ErrorBody(message: string): Json
  {
    JObject(map["error" := JString(message)])
  }

  /** What the `/retrieveContext` handler makes of a body: a query string,
      no recognised shape, or a TypeError thrown while looking. */
  datatype Extraction = Query(text: string) | Unrecognised | Threw(error: Exception)

  /** `typeof v === 'string' ? v : …`: the string a property read yields. */
  function StringOf(v: Option<Json>): string
    requires IsString(v)
  {
    v.value.s
  }

  /** The value itself when it is a string. */
  function AsString(v: Json): (r: Option<string>)
    ensures r.Some? <==> v.JString?
    ensures r.Some? ==> r.value == v.s
  {
    match v
    case JString(s) => Some(s)
    case _ => None
  }

  /** The query extraction chain of `/retrieveContext`: `body.data`,
      `body.query`, `body.text`, the body itself, then the same keys of
      `body.data || body`. */
  function ExtractQuery(body: Json): (r: Extraction)
    ensures r.Threw? <==> body == JNull
    ensures r.Threw? ==> r.error == NullRead("data")
  {
    match Get(body, "data")
    case Failure(e) => Threw(e)
    case Success(data) =>
      var query, text := Field(body, "query"), Field(body, "text");
      if IsString(data) then Query(StringOf(data))
      else if IsString(query) then Query(StringOf(query))
      else if IsString(text) then Query(StringOf(text))
      else if body.JString? then Query(body.s)
      else
        var inner := if Truthy(data) then data.value else body;
        match AsString(inner)
        case Some(s) => Query(s)
        case None =>
          if IsString(Field(inner, "query")) then Query(StringOf(Field(inner, "query")))
          else if IsString(Field(inner, "text")) then Query(StringOf(Field(inner, "text")))
          else Unrecognised
  }

  /** The places a query string is looked for, in priority order. */
  function Candidates(body: Json): seq<Option<Json>>
  {
    var data := Field(body, "data");
    var inner := if Truthy(data) then data.value else body;
    [data, Field(body, "query"), Field(body, "text"), Some(body),
     Field(inner, "query"), Field(inner, "text")]
  }

  /** The string held by the first place that holds one, if any. */
  function FirstString(places: seq<Option<Json>>): Option<string>
  {
    if places == [] then None
    else if IsString(places[0]) then Some(StringOf(places[0]))
    else FirstString(places[1..])
  }

  /** `FirstString` finds nothing exactly when no place holds a string, and
      otherwise the string of a place that no earlier place precedes with
      a string of its own. */
  lemma {:induction false} FirstStringFinds(places: seq<Option<Json>>)
    ensures FirstString(places).None? <==> forall k :: 0 <= k < |places| ==> !IsString(places[k])
    ensures FirstString(places).Some? ==>
      exists k :: && 0 <= k < |places| && IsString(places[k])
                  && StringOf(places[k]) == FirstString(places).value
                  && forall j :: 0 <= j < k ==> !IsString(places[j])
  {
    if places != [] && !IsString(places[0]) {
      var rest := places[1..];
      FirstStringFinds(rest);
      assert forall k :: 0 < k < |places| ==> places[k] == rest[k - 1];
      if FirstString(rest).Some? {
        var k :| 0 <= k < |rest| && IsString(rest[k]) && StringOf(rest[k]) == FirstString(rest).value
          && forall j :: 0 <= j < k ==> !IsString(rest[j]);
        assert IsString(places[k + 1]);
      }
    }
  }

  /** For a body that is not `null`, the extraction is the first string
      among the places, in priority order, and a 400 exactly when there is
      none. */
  lemma ExtractIsFirstString(body: Json)
    requires body != JNull
    ensures ExtractQuery(body) == match FirstString(Candidates(body))
                                  case Some(s) => Query(s)
                                  case None => Unrecognised
  {
    var c := Candidates(body);
    FirstStringStep(c, 0);
    FirstStringStep(c, 1);
    FirstStringStep(c, 2);
    FirstStringStep(c, 3);
    FirstStringStep(c, 4);
    FirstStringStep(c, 5);
    assert c[0..] == c && c[6..] == [];
  }

  lemma FirstStringStep(places: seq<Option<Json>>, k: nat)
    requires k < |places|
    ensures FirstString(places[k..]) ==
      if IsString(places[k]) then Some(StringOf(places[k])) else FirstString(places[k + 1..])
  {
    assert places[k..][1..] == places[k + 1..];
  }

  /** The nested `typeof data === 'string'` test never decides: a string
      `body.data`, or a string body, has already been taken. */
  lemma NestedStringUnreachable(body: Json)
    requires body != JNull
    requires !IsString(Field(body, "data")) && !body.JString?
    ensures var data := Field(body, "data");
      !(if Truthy(data) then data.value else body).JString?
  {
  }

  /** `body.data` wins over `body.query`, which wins over `body.text`. */
  lemma ExtractPriority(fields: map<string, Json>, a: string, b: string, c: string)
    ensures ExtractQuery(JObject(fields["data" := JString(a)]["query" := JString(b)]["text" := JString(c)]))
      == Query(a)
    ensures "data" !in fields ==>
      ExtractQuery(JObject(fields["query" := JString(b)]["text" := JString(c)])) == Query(b)
    ensures "data" !in fields && "query" !in fields ==>
      ExtractQuery(JObject(fields["text" := JString(c)])) == Query(c)
  {
    var m1 := fields["data" := JString(a)]["query" := JString(b)]["text" := JString(c)];
    assert m1["data"] == JString(a);
    if "data" !in fields {
      var m2 := fields["query" := JString(b)]["text" := JString(c)];
      assert "data" !in m2 && m2["query"] == JString(b);
      if "query" !in fields {
        var m3 := fields["text" := JString(c)];
        assert "data" !in m3 && "query" !in m3 && m3["text"] == JString(c);
      }
    }
  }

  /** A nested `query` string wins over a nested `text` string when the
      top level holds no string. */
  lemma NestedQueryBeforeText(inner: map<string, Json>, b: string, c: string)
    ensures ExtractQuery(JObject(map["data" := JObject(inner["query" := JString(b)]["text" := JString(c)])]))
      == Query(b)
    ensures "query" !in inner ==>
      ExtractQuery(JObject(map["data" := JObject(inner["text" := JString(c)])])) == Query(c)
  {
    var body := JObject(map["data" := JObject(inner["query" := JString(b)]["text" := JString(c)])]);
    assert Field(body, "query").None? && Field(body, "text").None?;
    assert Field(body, "data") == Some(JObject(inner["query" := JString(b)]["text" := JString(c)]));
    if "query" !in inner {
      var body2 := JObject(map["data" := JObject(inner["text" := JString(c)])]);
      assert Field(body2, "query").None? && Field(body2, "text").None?;
      assert Field(body2, "data") == Some(JObject(inner["text" := JString(c)]));
    }
  }

  /** The four documented shapes each yield "x"; `{foo: 1}` yields none. */
  lemma ExtractExamples()
    ensures ExtractQuery(JObject(map["data" := JString("x")])) == Query("x")
    ensures ExtractQuery(JObject(map["query" := JString("x")])) == Query("x")
    ensures ExtractQuery(JObject(map["text" := JString("x")])) == Query("x")
    ensures ExtractQuery(JString("x")) == Query("x")
    ensures ExtractQuery(JObject(map["foo" := JNumber(1)])) == Unrecognised
  {
    var d := map["data" := JString("x")];
    assert "data" in d;
    var q := map["query" := JString("x")];
    assert "data" !in q && "query" in q;
    var t := map["text" := JString("x")];
    assert "data" !in t && "query" !in t && "text" in t;
    var f := map["foo" := JNumber(1)];
    assert "data" !in f && "query" !in f && "text" !in f;
  }

  /** The reply to a flow's success or failure; the `stack` field of the
      500 reply is not modelled. */
  function Respond<T>(outcome: Result<T, Exception>, encode: T -> Json): (r: Response)
    ensures outcome.Success? ==> r == Response(200, encode(outcome.value))
    ensures outcome.Failure? ==> r == Response(500, ErrorBody(Message(outcome.error)))
  {
    match outcome
    case Success(v) => Response(200, encode(v))
    case Failure(e) => Response(500, ErrorBody(Message(e)))
  }

  /** A list of strings as a JSON array. */
  function StringsJson(items: seq<string>): (j: Json)
    ensures j.JArray? && |j.items| == |items|
    ensures forall i :: 0 <= i < |items| ==> j.items[i] == JString(items[i])
  {
    JArray(seq(|items|, i requires 0 <= i < |items| => JString(items[i])))
  }

  /** The `/retrieveContext` handler, with `retrieve` standing for the
      retrieval flow. */
  function RetrieveHandler(body: Json, retrieve: string -> Result<seq<string>, Exception>): (r: Response)
    ensures r.status == 400 <==> ExtractQuery(body).Unrecognised?
    ensures r.status == 400 ==> r.body == ErrorBody(BadRequestMessage)
    ensures ExtractQuery(body).Query? ==> r == Respond(retrieve(ExtractQuery(body).text), StringsJson)
    ensures ExtractQuery(body).Threw? ==> r == Response(500, ErrorBody(Message(ExtractQuery(body).error)))
  {
    match ExtractQuery(body)
    case Threw(e) => Response(500, ErrorBody(Message(e)))
    case Unrecognised => Response(400, ErrorBody(BadRequestMessage))
    case Query(query) => Respond(retrieve(query), StringsJson)
  }

  /** Retrieval is invoked only with an extracted query: when none is
      found, the reply is the same whatever the flow would do. */
  lemma RetrievalNotInvokedOnBadRequest(body: Json, f: string -> Result<seq<string>, Exception>,
                                        g: string -> Result<seq<string>, Exception>)
    requires !ExtractQuery(body).Query?
    ensures RetrieveHandler(body, f) == RetrieveHandler(body, g)
  {
  }

  /** The query reaches the flow unchanged: flows that agree on it give
      the same reply. */
  lemma QueryPassedUnchanged(body: Json, f: string -> Result<seq<string>, Exception>,
                             g: string -> Result<seq<string>, Exception>)
    requires ExtractQuery(body).Query? && f(ExtractQuery(body).text) == g(ExtractQuery(body).text)
    ensures RetrieveHandler(body, f) == RetrieveHandler(body, g)
  {
  }

  /** `req.body.data || req.body`: the `data` wrapper when it is truthy,
      otherwise the body itself; reading it off `null` throws. */
  function IndexInput(body: Json): (r: Result<Json, Exception>)
    ensures r.Failure? <==> body == JNull
    ensures r.Success? && Truthy(Field(body, "data")) ==> r.value == body.fields["data"]
    ensures r.Success? && !Truthy(Field(body, "data")) ==> r.value == body
  {
    match Get(body, "data")
    case Failure(e) => Failure(e)
    case Success(data) => Success(if Truthy(data) then data.value else body)
  }

  /** `{ indexedCount, errors }` as JSON. */
  function SummaryJson(s: BatchSummary): (j: Json)
    ensures j.JObject? && j.fields.Keys == {"indexedCount", "errors"}
    ensures j.fields["indexedCount"] == JNumber(s.indexedCount)
    ensures j.fields["errors"] == StringsJson(s.errors)
  {
    JObject(map["indexedCount" := JNumber(s.indexedCount), "errors" := StringsJson(s.errors)])
  }

  /** The `/indexQuestions` handler, with `index` standing for the indexing
      flow applied to the unwrapped input. */
  function IndexHandler(body: Json, index: Json -> Result<BatchSummary, Exception>): (r: Response)
    ensures r.status == 200 || r.status == 500
    ensures IndexInput(body).Failure? ==> r == Response(500, ErrorBody(Message(IndexInput(body).error)))
    ensures IndexInput(body).Success? ==> r == Respond(index(IndexInput(body).value), SummaryJson)
  {
    match IndexInput(body)
    case Failure(e) => Response(500, ErrorBody(Message(e)))
    case Success(input) => Respond(index(input), SummaryJson)
  }

  /** `{data: [...]}` and the bare array `[...]` reach the flow as the same
      array. */
  lemma WrappedAndBareBatchesAgree(items: seq<Json>, index: Json -> Result<BatchSummary, Exception>)
    ensures IndexHandler(JObject(map["data" := JArray(items)]), index) == IndexHandler(JArray(items), index)
  {
    assert Field(JObject(map["data" := JArray(items)]), "data") == Some(JArray(items));
  }
}
