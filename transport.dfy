/** What the core sees of NetworkClient.kt: every call is an oracle that
    returns a tagged `NetworkResult`, and response bodies are JSON values
    already parsed into records with optional fields. */
module Transport {
  import opened Common
  import opened Text

  datatype Throwable = Throwable(message: Option<string>)

  /** `NetworkResult`: the response code and the (nullable) body, or the
      (nullable) throwable that ended the exchange. */
  datatype NetworkResult<+B> =
    | Success(code: Int32, body: Option<B>)
    | Failure(throwable: Option<Throwable>)

  /** The `in 200..299` test every caller applies to a response code. */
  predicate IsSuccessCode(code: int) {
    200 <= code <= 299
  }

  /** The message of the only throwable NetworkClient ever reports: each call
      catches every throwable of its HTTP exchange and replaces it. */
  const NETWORK_REQUEST_FAILED: string := "Network request failed"

  function TransportFailure<B>(): NetworkResult<B> {
    Failure(Some(Throwable(Some(NETWORK_REQUEST_FAILED))))
  }

  /** The parameters of `getHistory`. */
  datatype HistoryRequest = HistoryRequest(page: Int32, limit: Int32, keyword: Option<string>)

  /** Both history loaders ask for at most 50 rows a page
      (`coerceAtMost(50)`). */
  const MAX_HISTORY_LIMIT: Int32 := 50

  function HistoryLimit(size: Int32): (r: Int32)
    ensures r <= MAX_HISTORY_LIMIT
    ensures size <= MAX_HISTORY_LIMIT ==> r == size
    ensures size >= MAX_HISTORY_LIMIT ==> r == MAX_HISTORY_LIMIT
  {
    CoerceAtMost(size, MAX_HISTORY_LIMIT)
  }

  const UNKNOWN_NETWORK_ERROR: string := "Unknown network error"

  /** The throwable a history loader reports for a `Failure`: the one carried,
      or a fresh "Unknown network error". */
  function FailureThrowable(t: Option<Throwable>): (r: Throwable)
    ensures t.Some? ==> r == t.value
    ensures t.None? ==> r.message == Some(UNKNOWN_NETWORK_ERROR)
  {
    t.GetOr(Throwable(Some(UNKNOWN_NETWORK_ERROR)))
  }

  /** The message "Server returned code N" both loaders and the repository
      build for a non-2xx answer. */
  function ServerReturnedCode(code: int): string {
    "Server returned code " + IntToString(code)
  }

  /** A JSON member value: a string, JSON null, or any other value (number,
      boolean, object, array) represented by the text `toString()` gives it. */
  datatype JsonValue = JString(s: string) | JNull | JLiteral(text: string)

  type JsonObject = map<string, JsonValue>

  /** The body a loader parses: a null body is read as "[]". */
  function BodyOrEmpty(body: Option<HistoryBody>): (r: HistoryBody)
    ensures body.None? ==> r == JsonArray([])
    ensures body.Some? ==> r == body.value
  {
    body.GetOr(JsonArray([]))
  }

  /** Every element is an object, so `getJSONObject(i)` throws for none. */
  predicate AllObjects(elements: seq<JsonElement>) {
    forall i :: 0 <= i < |elements| ==> elements[i].JObject?
  }

  /** An element of a JSON array: an object, or something `getJSONObject`
      rejects. */
  datatype JsonElement = JObject(fields: JsonObject) | JNotObject

  /** A history response body: a JSON array, or text that is not one (for
      which the `JSONArray` constructor throws). */
  datatype HistoryBody = JsonArray(elements: seq<JsonElement>) | NotArray

  /** The text Android's org.json gives a member: strings as they are, JSON
      null as "null", other values as their `toString()`. */
  function ValueText(v: JsonValue): string {
    match v
    case JString(s) => s
    case JNull => "null"
    case JLiteral(t) => t
  }

  /** Android org.json `optString(name, fallback)`: the member's text when the
      member is present (JSON null included, as "null"), else `fallback`. */
  function OptString(o: JsonObject, name: string, fallback: string): (r: string)
    ensures name !in o ==> r == fallback
    ensures name in o && o[name].JString? ==> r == o[name].s
    ensures name in o ==> r == ValueText(o[name])
  {
    if name in o then ValueText(o[name]) else fallback
  }

  /** The eight text fields a history row copies from a response object
      with `optString(name)`, whose fallback is "". */
  predicate CopiesTextFields(o: JsonObject, item: string, serialNumber: string, sim: string, merchant: string,
                             shop: string, receiver: string, deliveryAgent: string, code: string) {
    && ReadsText(o, "item", item, "") && ReadsText(o, "serialNumber", serialNumber, "")
    && ReadsText(o, "sim", sim, "") && ReadsText(o, "merchant", merchant, "")
    && ReadsText(o, "shop", shop, "") && ReadsText(o, "receiver", receiver, "")
    && ReadsText(o, "deliveryAgent", deliveryAgent, "") && ReadsText(o, "code", code, "")
  }

  /** `value` is what `optString(name, fallback)` reads from `o`: the
      member's text when present, else the fallback. */
  predicate ReadsText(o: JsonObject, name: string, value: string, fallback: string) {
    && (name in o ==> value == ValueText(o[name]))
    && (name !in o ==> value == fallback)
  }

  /** `has(name) && !isNull(name)`. */
  predicate HasNonNull(o: JsonObject, name: string) {
    name in o && o[name] != JNull
  }
}
