/** The response shapes of the service: the pydantic models `ConvertResponse`
    and `HealthResponse`, FastAPI's `HTTPException`, and the JSON bodies and
    status codes that reach the client. */
module Responses {
  import opened Wrappers

  const StatusOk := 200
  const StatusUnauthorized := 401

  /** A JSON value; an object keeps its members in order. */
  datatype Json =
    | JNull
    | JBool(b: bool)
    | JInt(n: int)
    | JString(s: string)
    | JObject(members: seq<(string, Json)>)

  /** The value of the first member named `key` of an object, if any. */
  function Member(obj: Json, key: string): (v: Option<Json>)
    ensures v.Some? ==> obj.JObject? && exists k :: 0 <= k < |obj.members| && obj.members[k] == (key, v.value)
    decreases if obj.JObject? then |obj.members| else 0
  {
    if !obj.JObject? || obj.members == [] then None
    else if obj.members[0].0 == key then Some(obj.members[0].1)
    else
      var rest := Member(JObject(obj.members[1..]), key);
      assert rest.Some? ==> exists k :: 0 <= k < |obj.members| && obj.members[k] == (key, rest.value) by {
        if rest.Some? {
          var k :| 0 <= k < |obj.members[1..]| && obj.members[1..][k] == (key, rest.value);
          assert obj.members[k + 1] == (key, rest.value);
        }
      }
      rest
  }

  function OptionalString(o: Option<string>): Json {
    match o
    case Some(s) => JString(s)
    case None => JNull
  }

  /** The `ConvertResponse` model: every field but `success` defaults to None. */
  datatype ConvertResponse = ConvertResponse(
    success: bool,
    url: Option<string>,
    pdfBase64: Option<string>,
    pages: Option<int>,
    error: Option<string>)

  /** `ConvertResponse(success=False, error=message)`. */
  function Failed(message: string): ConvertResponse {
    ConvertResponse(false, None, None, None, Some(message))
  }

  /** `ConvertResponse(success=True)`: keyword arguments that are not fields
      of the model are ignored by pydantic, so they leave no trace. */
  function Succeeded(): ConvertResponse {
    ConvertResponse(true, None, None, None, None)
  }

  /** The body FastAPI writes for a `ConvertResponse` returned from a route:
      every field, in declaration order, with None as `null`. */
  function ConvertResponseJson(r: ConvertResponse): (j: Json)
    ensures Member(j, "success") == Some(JBool(r.success))
    ensures Member(j, "error") == Some(OptionalString(r.error))
    ensures Member(j, "url") == Some(OptionalString(r.url))
    ensures Member(j, "pdf_base64") == Some(OptionalString(r.pdfBase64))
    ensures Member(j, "pages") == Some(match r.pages case Some(n) => JInt(n) case None => JNull)
  {
    var members := [
      ("success", JBool(r.success)),
      ("url", OptionalString(r.url)),
      ("pdf_base64", OptionalString(r.pdfBase64)),
      ("pages", match r.pages case Some(n) => JInt(n) case None => JNull),
      ("error", OptionalString(r.error))
    ];
    assert Member(JObject(members[4..]), "error") == Some(OptionalString(r.error));
    assert Member(JObject(members[2..]), "error") == Member(JObject(members[4..]), "error") by {
      assert members[2..][1..] == members[3..] && members[3..][1..] == members[4..];
    }
    assert members[1..][1..] == members[2..];
    assert Member(JObject(members[1..]), "pdf_base64") == Member(JObject(members[2..]), "pdf_base64");
    assert Member(JObject(members[3..]), "pages") == Some(members[3].1);
    assert Member(JObject(members[1..]), "pages") == Member(JObject(members[3..]), "pages");
    JObject(members)
  }

  /** The `HealthResponse` model. */
  datatype HealthResponse = HealthResponse(status: string, gotenberg: string, version: string)

  function HealthResponseJson(r: HealthResponse): Json {
    JObject([("status", JString(r.status)), ("gotenberg", JString(r.gotenberg)), ("version", JString(r.version))])
  }

  /** FastAPI's `HTTPException(status_code, detail)`. */
  datatype HttpException = HttpException(statusCode: int, detail: string)

  /** What the client receives: a status code and a JSON body. */
  datatype HttpResponse = HttpResponse(statusCode: int, body: Json)

  /** The service's handler for `HTTPException`: the exception's own status
      code, and a body holding only `success: false` and the detail as `error`. */
  function HttpExceptionResponse(e: HttpException): (r: HttpResponse)
    ensures r.statusCode == e.statusCode
    ensures Member(r.body, "success") == Some(JBool(false))
    ensures Member(r.body, "error") == Some(JString(e.detail))
    ensures forall k :: k != "success" && k != "error" ==> Member(r.body, k) == None
  {
    HttpResponse(e.statusCode, JObject([("success", JBool(false)), ("error", JString(e.detail))]))
  }

  /** A `ConvertResponse` returned from a route is sent with status 200. */
  function RouteResponse(r: ConvertResponse): (resp: HttpResponse)
    ensures resp.statusCode == StatusOk
    ensures Member(resp.body, "success") == Some(JBool(r.success))
  {
    HttpResponse(StatusOk, ConvertResponseJson(r))
  }
}
