/** What both agent scripts exchange with the chat-completion backend and
    with the tools: tool-call requests, the planning message, tool outputs
    and the tool schema. JSON text is abstracted: a call's arguments are the
    decoded string-to-string object, or `None` when the text does not decode
    (which includes the empty text). */
module Messages {
  import opened Wrappers
  import opened Checks

  /** A tool-call request: its id, the name of the tool it asks for, and its
      decoded arguments; `None` stands for an absent attribute. */
  datatype Call = Call(id: Option<string>, name: Option<string>, parsedArgs: Option<map<string, string>>)

  /** The planning reply's first message: the `tool_calls` list (an absent
      list is the empty one) and the legacy `function_call`. */
  datatype Message = Message(toolCalls: seq<Call>, functionCall: Option<Call>)

  /** A chat-completion request either raised or returned a message. */
  datatype Reply = Raised | Replied(message: Message)

  /** The `tool_call_id` of an output: a string taken from the call, or the
      `call_<hash>` fallback, whose value is salted per process and so left
      opaque. */
  datatype CallId = Given(id: string) | Hashed

  /** Why `tool(**args)` raised `TypeError` for a tool whose only parameter
      is `file_name`: Python reports an unexpected keyword before a missing
      argument. */
  datatype ArgFault = UnexpectedKeyword | MissingFileName

  /** A tool output's `content`: the check's verdict, or the
      `{"error", "args"}` record of a call that raised. */
  datatype Content = Checked(verdict: Verdict) | InvocationError(fault: ArgFault, args: map<string, string>)

  /** One entry of `tool_outputs` (its `role` is always `"tool"`). */
  datatype ToolOutput = ToolOutput(callId: CallId, name: string, content: Content)

  /** One tool (function) description offered to the backend. */
  datatype Parameter = Parameter(kind: string, description: string)
  datatype Parameters = Parameters(properties: map<string, Parameter>, required: seq<string>)
  datatype FunctionSpec = FunctionSpec(name: string, description: string, parameters: Option<Parameters>)

  /** `tool(**args)` for a registered tool: it runs exactly when the
      arguments are `file_name` and nothing else, and otherwise raises
      `TypeError`, naming an unexpected keyword first. */
  function Invoke(t: Tool, args: map<string, string>): (c: Content)
    ensures c.Checked? <==> args.Keys == {"file_name"}
    ensures c.Checked? ==> c.verdict == RunCheck(t, args["file_name"])
    ensures c.InvocationError? ==> c.args == args
    ensures c.InvocationError? ==> (c.fault == MissingFileName <==> args == map[])
  {
    if args.Keys - {"file_name"} != {} then
      InvocationError(UnexpectedKeyword, args)
    else if "file_name" !in args then
      assert args.Keys == {};
      InvocationError(MissingFileName, args)
    else
      Checked(RunCheck(t, args["file_name"]))
  }
}
