/**
 * The JSON-RPC 2.0 messages of the LSP client: the JSON values `serde_json`
 * hands around, how a received value is recognised as a response (section 5
 * of the JSON-RPC 2.0 specification) or a notification (section 4.1), how a
 * response is turned into the request's outcome, and the compact text
 * `serde_json::to_string` produces for a request (section 4) or a
 * notification.
 */
module JsonRpc {
  import opened Wrappers
  import opened Unicode
  import opened Ints

  /** `serde_json::Value`; a non-integer number keeps only its text. */
  datatype Json =
    | JNull
    | JBool(b: bool)
    | JInt(n: int)
    | JFloat(text: string)
    | JString(s: string)
    | JArray(items: seq<Json>)
    | JObject(fields: map<string, Json>)

  /** `Value::get(key)`: a field of an object; None for any other value. */
  function Get(v: Json, key: string): (r: Option<Json>)
    ensures r.Some? <==> v.JObject? && key in v.fields
    ensures r.Some? ==> r.value == v.fields[key]
  {
    if v.JObject? && key in v.fields then Some(v.fields[key]) else None
  }

  /** `JsonRpcError`. */
  datatype RpcError = RpcError(code: i32, message: string, data: Option<Json>)

  /** `JsonRpcResponse`. */
  datatype Response = Response(jsonrpc: string, id: i32, result: Option<Json>, error: Option<RpcError>)

  /** An optional field as serde reads it into an `Option`: missing or null is None. */
  function OptionalField(v: Json, key: string): Option<Json>
  {
    match Get(v, key)
    case Some(JNull) => None
    case other => other
  }

  function FieldsOf(v: Json): map<string, Json>
  {
    if v.JObject? then v.fields else map[]
  }

  function AsI32(v: Json): (r: Option<i32>)
    ensures r.Some? ==> v == JInt(r.value)
  {
    if v.JInt? && I32_MIN <= v.n <= I32_MAX then Some(v.n) else None
  }

  /** `serde_json::from_value::<JsonRpcError>`. */
  function ParseError(v: Json): (r: Option<RpcError>)
    ensures r.Some? ==> v.JObject? && "code" in v.fields && v.fields["code"] == JInt(r.value.code)
  {
    var code := if "code" in FieldsOf(v) then AsI32(FieldsOf(v)["code"]) else None;
    var message := Get(v, "message");
    if code.Some? && message.Some? && message.value.JString? then
      Some(RpcError(code.value, message.value.s, OptionalField(v, "data")))
    else None
  }

  /** `serde_json::from_value::<JsonRpcResponse>`: an object with a string
      `jsonrpc`, an `i32` `id`, any `result` and, when present and not null, an
      `error` object. Unknown fields are ignored. */
  function ParseResponse(v: Json): (r: Option<Response>)
    ensures r.Some? ==> Get(v, "id") == Some(JInt(r.value.id))
  {
    var version := Get(v, "jsonrpc");
    var id := if "id" in FieldsOf(v) then AsI32(FieldsOf(v)["id"]) else None;
    if version.None? || !version.value.JString? || id.None? then None
    else
      match OptionalField(v, "error")
      case None => Some(Response(version.value.s, id.value, OptionalField(v, "result"), None))
      case Some(e) =>
        match ParseError(e)
        case Some(err) => Some(Response(version.value.s, id.value, OptionalField(v, "result"), Some(err)))
        case None => None
  }

  /** How a received value is routed: a value with an "id" field is a response
      candidate, any other value a notification. */
  predicate HasId(v: Json) {
    Get(v, "id").Some?
  }

  /** The ways a request can fail. */
  datatype RequestError =
    | RemoteError(error: Json)   // reported as an "LSP error" with the debug form of `error`
    | InvalidResponse            // "Invalid LSP response"
    | NoResponse                 // "No response received"
    | Timeout                    // "Request timeout"
    | WriteFailed                // the error of writing the request

  /** The outcome of a delivered response, read from the raw value: its "result"
      (even when null) wins over its "error". */
  function SelectResult(response: Json): (r: Result<Json, RequestError>)
    ensures r.Ok? <==> Get(response, "result").Some?
    ensures r.Ok? ==> r.value == response.fields["result"]
    ensures r.Err? ==> (r.error.RemoteError? <==> Get(response, "error").Some?)
    ensures r.Err? ==> r.error.RemoteError? || r.error.InvalidResponse?
  {
    match Get(response, "result")
    case Some(result) => Ok(result)
    case None =>
      match Get(response, "error")
      case Some(error) => Err(RemoteError(error))
      case None => Err(InvalidResponse)
  }

  /** The message text of a request error. */
  function ErrorMessage(e: RequestError): string
  {
    match e
    case RemoteError(_) => "LSP error: "
    case InvalidResponse => "Invalid LSP response"
    case NoResponse => "No response received"
    case Timeout => "Request timeout"
    case WriteFailed => "write failed"
  }

  // ---------------------------------------------------------------------
  // Serialisation of outgoing messages

  function HexDigit(d: nat): (c: char)
    requires d < 16
    ensures IsAscii(c)
  {
    "0123456789abcdef"[d]
  }

  /** How `serde_json` writes one character inside a string literal. */
  function EscapeChar(c: char): (r: string)
    ensures AllAscii(r) || r == [c]
    ensures |r| >= 1
  {
    if c == '"' then "\\\""
    else if c == '\\' then "\\\\"
    else if (c as int) == 0x08 then "\\b"
    else if (c as int) == 0x0C then "\\f"
    else if c == '\n' then "\\n"
    else if c == '\r' then "\\r"
    else if c == '\t' then "\\t"
    else if (c as int) < 0x20 then "\\u00" + [HexDigit((c as int) / 16), HexDigit((c as int) % 16)]
    else [c]
  }

  /** A JSON string literal. */
  function Quote(s: string): string
  {
    "\"" + EscapeBody(s) + "\""
  }

  function EscapeBody(s: string): string
  {
    if s == [] then [] else EscapeBody(s[..|s| - 1]) + EscapeChar(s[|s| - 1])
  }

  /** ASCII text escapes to ASCII text. */
  lemma {:induction false} EscapeAscii(s: string)
    requires AllAscii(s)
    ensures AllAscii(EscapeBody(s))
  {
    if s != [] {
      EscapeAscii(s[..|s| - 1]);
      assert IsAscii(s[|s| - 1]);
    }
  }

  /** The decimal text of an integer. */
  function IntText(x: int): (s: string)
    ensures AllAscii(s) && s != []
  {
    if x < 0 then "-" + Decimal(-x) else Decimal(x)
  }

  /** `serde_json::to_string` of a `JsonRpcRequest` with fields `jsonrpc` ("2.0"), `id`, `method` and `params`,
      with the parameters already serialised. */
  function RequestText(id: i32, methodName: string, params: string): string
  {
    "{\"jsonrpc\":\"2.0\",\"id\":" + IntText(id) + ",\"method\":" + Quote(methodName)
    + ",\"params\":" + params + "}"
  }

  /** `serde_json::to_string` of a `JsonRpcNotification` with fields `jsonrpc` ("2.0"), `method` and `params`. */
  function NotificationText(methodName: string, params: string): string
  {
    "{\"jsonrpc\":\"2.0\",\"method\":" + Quote(methodName) + ",\"params\":" + params + "}"
  }

  /** A request or notification built from ASCII parts is ASCII. */
  lemma RequestTextAscii(id: i32, methodName: string, params: string)
    requires AllAscii(methodName) && AllAscii(params)
    ensures AllAscii(RequestText(id, methodName, params))
    ensures AllAscii(NotificationText(methodName, params))
  {
    QuoteAscii(methodName);
    RequestAscii(id, Quote(methodName), params);
    NotificationAscii(Quote(methodName), params);
  }

  lemma QuoteAscii(s: string)
    requires AllAscii(s)
    ensures AllAscii(Quote(s))
  {
    EscapeAscii(s);
    AsciiAppend("\"", EscapeBody(s));
    AsciiAppend("\"" + EscapeBody(s), "\"");
  }

  lemma RequestAscii(id: i32, q: string, params: string)
    requires AllAscii(q) && AllAscii(params)
    ensures AllAscii("{\"jsonrpc\":\"2.0\",\"id\":" + IntText(id) + ",\"method\":" + q + ",\"params\":" + params + "}")
  {
    var head := "{\"jsonrpc\":\"2.0\",\"id\":";
    AsciiAppend(head, IntText(id));
    AsciiAppend(head + IntText(id), ",\"method\":");
    AsciiAppend(head + IntText(id) + ",\"method\":", q);
    AsciiAppend(head + IntText(id) + ",\"method\":" + q, ",\"params\":");
    AsciiAppend(head + IntText(id) + ",\"method\":" + q + ",\"params\":", params);
    AsciiAppend(head + IntText(id) + ",\"method\":" + q + ",\"params\":" + params, "}");
  }

  lemma NotificationAscii(q: string, params: string)
    requires AllAscii(q) && AllAscii(params)
    ensures AllAscii("{\"jsonrpc\":\"2.0\",\"method\":" + q + ",\"params\":" + params + "}")
  {
    var nhead := "{\"jsonrpc\":\"2.0\",\"method\":";
    AsciiAppend(nhead, q);
    AsciiAppend(nhead + q, ",\"params\":");
    AsciiAppend(nhead + q + ",\"params\":", params);
    AsciiAppend(nhead + q + ",\"params\":" + params, "}");
  }
}
