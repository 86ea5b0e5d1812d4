/** What a model provider returns, as the streaming code and the engine's loop see it. */
module Provider {

  datatype ToolCall = ToolCall(id: string, name: string, arguments: string)

  /** `needRetry` asks for another attempt, because the answer looks like a tool call that cannot be parsed. */
  datatype Response = Response(
    content: string, thinking: string, toolCalls: seq<ToolCall>, truncated: bool, needRetry: bool)
}
