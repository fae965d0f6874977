/**
 * What the client sends to the suggestion server and what it reads back:
 * the JSON-RPC request, the reply, and the conversion of the reply's
 * one-based line numbers into editor positions.
 */
module Protocol {
  import opened Common
  import opened Positions

  /** One ranked suggestion: its score, a diff preview and the code that replaces the edit range. */
  datatype EditSuggestion = EditSuggestion(score: real, changePreview: string, newCode: string)

  /**
   * The server's answer. `editStart` and `editEnd` are (line, column) pairs
   * with one-based lines; `oldCode` is the text the server saw in that range.
   */
  datatype ServerResponse = ServerResponse(
    targetFile: string,
    editStart: (int, int),
    editEnd: (int, int),
    oldCode: string,
    suggestions: seq<EditSuggestion>)

  datatype SuggestParams = SuggestParams(project: string, file: string, line: nat)

  datatype RpcRequest = RpcRequest(jsonrpc: string, methodName: string, params: SuggestParams, id: int)

  /** The `suggestAndApply` request for a one-based `line` of `file` in `project`. */
  function SuggestRequest(project: string, file: string, line: nat): (r: RpcRequest)
    ensures r.jsonrpc == "2.0" && r.methodName == "suggestAndApply" && r.id == 1
    ensures r.params.project == project && r.params.file == file && r.params.line == line
  {
    RpcRequest("2.0", "suggestAndApply", SuggestParams(project, file, line), 1)
  }

  /** The JSON-RPC body of a reply: a result or an error object. */
  datatype RpcBody = RpcResult(result: ServerResponse) | RpcError(message: string)

  /**
   * An HTTP reply as the HTTP client resolves it, with the parsed body under
   * `data`. The client rejects replies whose status is not 2xx, so a reply
   * it resolves to is always a success and its status plays no part.
   */
  datatype HttpReply = HttpReply(data: RpcBody)

  /**
   * The reply handler as it is written: it reads `suggestions` from the HTTP
   * reply object itself, where there is no such property, so mapping over it
   * throws, and the error handler takes over for every reply.
   */
  function ReadReplyAsWritten(reply: HttpReply): (r: Result<ServerResponse, string>)
    ensures r.Err?
  {
    Err("TypeError: Cannot read properties of undefined (reading 'map')")
  }

  /** The reply handler as intended: the server response is the JSON-RPC result in the body. */
  function ReadReply(reply: HttpReply): (r: Result<ServerResponse, string>)
    ensures r.Ok? <==> reply.data.RpcResult?
    ensures r.Ok? ==> r.value == reply.data.result
    ensures r.Err? ==> r.error == reply.data.message
  {
    match reply.data
    case RpcResult(result) => Ok(result)
    case RpcError(message) => Err(message)
  }

  /** Every well-formed successful reply is lost as written and kept as intended. */
  lemma AsWrittenLosesEveryResult(response: ServerResponse)
    ensures ReadReplyAsWritten(HttpReply(RpcResult(response))).Err?
    ensures ReadReply(HttpReply(RpcResult(response))) == Ok(response)
  {
  }

  /** A failed transport (the promise rejects) or the reply it resolved to, read as intended. */
  function Receive(transport: Result<HttpReply, string>): (r: Result<ServerResponse, string>)
    ensures transport.Err? ==> r == Err(transport.error)
    ensures transport.Ok? && transport.value.data.RpcResult? ==> r == Ok(transport.value.data.result)
    ensures transport.Ok? && transport.value.data.RpcError? ==> r == Err(transport.value.data.message)
  {
    match transport
    case Err(e) => Err(e)
    case Ok(reply) => ReadReply(reply)
  }

  /** The response with its target file made absolute under the project folder. */
  function WithProjectPath(project: string, response: ServerResponse): (r: ServerResponse)
    ensures r.targetFile == project + "/" + response.targetFile
    ensures r.editStart == response.editStart && r.editEnd == response.editEnd
    ensures r.oldCode == response.oldCode && r.suggestions == response.suggestions
  {
    response.(targetFile := project + "/" + response.targetFile)
  }

  /**
   * The editor position of a server (line, column) pair: the line becomes
   * zero-based and the column is kept. The editor refuses negative
   * coordinates, so a line below 1 or a negative column has no position.
   */
  function ServerPosition(p: (int, int)): (r: Option<Position>)
    ensures r.Some? <==> 1 <= p.0 && 0 <= p.1
    ensures r.Some? ==> r.value.line + 1 == p.0 && r.value.character == p.1
  {
    if p.0 - 1 < 0 || p.1 < 0 then None
    else Some(Position(p.0 - 1, p.1))
  }

  /** The range a response's edit covers, ordered as the editor orders ranges. */
  function EditRange(response: ServerResponse): (r: Option<Range>)
    ensures r.Some? <==> ServerPosition(response.editStart).Some? && ServerPosition(response.editEnd).Some?
    ensures r.Some? ==> Before(r.value.start, r.value.end)
    ensures r.Some? ==>
      var s, e := ServerPosition(response.editStart).value, ServerPosition(response.editEnd).value;
      (r.value == Range(s, e) || r.value == Range(e, s)) && (Before(s, e) ==> r.value == Range(s, e))
  {
    var s :- ServerPosition(response.editStart);
    var e :- ServerPosition(response.editEnd);
    Some(MakeRange(s, e))
  }
}
