/**
 JSON-RPC envelopes as the Codex transport reads and writes them.
 */
module JsonRpc {
  import opened Wrappers

  const U64_MAX: nat := 0xFFFF_FFFF_FFFF_FFFF
  const I64_MIN: int := -0x8000_0000_0000_0000
  const I64_MAX: int := 0x7FFF_FFFF_FFFF_FFFF

  // "Method not found" of section 5.1 of the JSON-RPC 2.0 Specification.
  const METHOD_NOT_FOUND: int := -32601

  datatype Json =
    | Null
    | Bool(b: bool)
    | Int(n: int)
    | Float(text: string)
    | Str(s: string)
    | Array(items: seq<Json>)
    | Object(fields: map<string, Json>)

  datatype Failure = ProcessExited | Timeout | WriteError | Server(code: int)

  type Reply = Result<Json, Failure>

  datatype Inbound =
    | Response(id: nat, result: Reply)
    | Notification(name: string, params: Json)
    | ServerRequest(requestId: Json)
    | Invalid

  function Field(message: Json, name: string): Option<Json> {
    if message.Object? && name in message.fields then Some(message.fields[name]) else None
  }

  function AsString(value: Option<Json>): Option<string> {
    if value.Some? && value.value.Str? then Some(value.value.s) else None
  }

  function AsU64(value: Option<Json>): (r: Option<nat>)
    ensures r.Some? ==> r.value <= U64_MAX
  {
    if value.Some? && value.value.Int? && 0 <= value.value.n <= U64_MAX then Some(value.value.n) else None
  }

  function AsI64(value: Option<Json>): Option<int> {
    if value.Some? && value.value.Int? && I64_MIN <= value.value.n <= I64_MAX then Some(value.value.n) else None
  }

  function ErrorCode(message: Json): Option<int> {
    match Field(message, "error")
    case None => None
    case Some(error) => AsI64(Field(error, "code"))
  }

  function Classify(message: Json): Inbound {
    var name := AsString(Field(message, "method"));
    var id := Field(message, "id");
    if name.Some? && id.Some? then ServerRequest(id.value)
    else if name.Some? then
      Notification(name.value, if Field(message, "params").Some? then Field(message, "params").value else Null)
    else if AsU64(id).None? then Invalid
    else if Field(message, "result").Some? then Response(AsU64(id).value, Ok(Field(message, "result").value))
    else if ErrorCode(message).Some? then Response(AsU64(id).value, Err(Server(ErrorCode(message).value)))
    else Invalid
  }

  // What the client writes.
  function RequestMessage(id: nat, name: string, params: Json): Json {
    Object(map["id" := Int(id), "method" := Str(name), "params" := params])
  }

  function NotificationMessage(name: string, params: Json): Json {
    Object(map["method" := Str(name), "params" := params])
  }

  function Refusal(id: Json): Json {
    Object(map["id" := id, "error" := Object(map[
      "code" := Int(METHOD_NOT_FOUND),
      "message" := Str("OpenConKit does not permit server-initiated actions")])])
  }

  // Read by the same rules, the three envelopes the client writes are a
  // request with its own id, a notification, and for a numeric id an error
  // response to that id carrying the method-not-found code.
  lemma {:induction false} WrittenEnvelopesReadBack(id: nat, name: string, params: Json)
    requires id <= U64_MAX
    ensures Classify(RequestMessage(id, name, params)) == ServerRequest(Int(id))
    ensures Classify(NotificationMessage(name, params)) == Notification(name, params)
    ensures Classify(Refusal(Int(id))) == Response(id, Err(Server(-32601)))
  {
    var request := RequestMessage(id, name, params);
    assert Field(request, "method") == Some(Str(name)) && Field(request, "id") == Some(Int(id));
    var note := NotificationMessage(name, params);
    assert Field(note, "method") == Some(Str(name)) && Field(note, "id") == None;
    assert Field(note, "params") == Some(params);
    var refusal := Refusal(Int(id));
    assert Field(refusal, "method") == None && Field(refusal, "result") == None;
    assert Field(refusal, "id") == Some(Int(id));
    var error := Field(refusal, "error").value;
    assert Field(error, "code") == Some(Int(METHOD_NOT_FOUND));
  }

  // A result is accepted only from an envelope with an unsigned id and no
  // method: nothing that names a method can ever complete a request, and no
  // envelope produces the transport's own failures.
  lemma {:induction false} OnlyPlainResponsesComplete(message: Json)
    ensures Classify(message).Response? <==>
            && AsString(Field(message, "method")).None?
            && AsU64(Field(message, "id")).Some?
            && (Field(message, "result").Some? || ErrorCode(message).Some?)
    ensures Classify(message).Response? ==>
              && Field(message, "id") == Some(Int(Classify(message).id)) && Classify(message).id <= U64_MAX
              && (Classify(message).result.Err? ==>
                    Classify(message).result.error.Server? && Field(message, "result").None?)
  {
  }
}
