/** `vnf_validation_agent.py`, the earlier script: the same three checks
    (module `Checks`), tool descriptions without a parameter schema, and a
    plan/execute loop with no fallback and no error tolerance. Whatever
    raises aborts the run before the summarising request. */
module ValidationAgent {
  import opened Wrappers
  import opened Checks
  import opened Messages

  /** The tool descriptions: one per registered tool, in registry order,
      named after it and described by its docstring, with no parameters. */
  function ToolDefinitions(tools: seq<Tool>): (defs: seq<FunctionSpec>)
    ensures |defs| == |tools|
    ensures forall i :: 0 <= i < |tools| ==>
      defs[i].name == Name(tools[i]) && defs[i].description == Doc(tools[i]) && defs[i].parameters.None?
  {
    seq(|tools|, i requires 0 <= i < |tools| => FunctionSpec(Name(tools[i]), Doc(tools[i]), None))
  }

  /** What ends a run early with an exception. */
  datatype Failure =
    | PlanningFailed                 // the planning request raised
    | UnknownTool(name: Option<string>)  // no tool name (`AttributeError`), or `KeyError` on the registry lookup
    | MalformedArguments             // `json.loads` raised
    | BadArguments(fault: ArgFault)  // `tool(**args)` raised `TypeError`

  /** How a run ends before the summarising request. */
  datatype Outcome = NoToolsNeeded | Aborted(failure: Failure) | Summarize(planningMessage: Message, outputs: seq<ToolOutput>)

  /** `getattr(call, 'id', ...)`: the id attribute, or the hash-based id when
      the attribute is absent. */
  function CallIdOf(c: Call): (id: CallId)
    ensures id.Given? <==> c.id.Some?
    ensures c.id.Some? ==> id == Given(c.id.value)
  {
    if c.id.Some? then Given(c.id.value) else Hashed
  }

  /** A call that runs: its tool is registered and its arguments decode to
      exactly `file_name`. */
  predicate WellFormed(c: Call) {
    && c.name.Some? && ToolNamed(c.name.value).Some?
    && c.parsedArgs.Some? && c.parsedArgs.value.Keys == {"file_name"}
  }

  /** One pass of the loop body: look the tool up, decode the arguments,
      call the tool; the first of these that raises decides the failure. */
  function Step(c: Call): (r: Result<ToolOutput, Failure>)
    ensures r.Success? <==> WellFormed(c)
    ensures r.Success? ==> r.value == ToolOutput(CallIdOf(c), c.name.value,
      Checked(RunCheck(ToolNamed(c.name.value).value, c.parsedArgs.value["file_name"])))
    ensures (c.name.None? || ToolNamed(c.name.value).None?) ==> r == Failure(UnknownTool(c.name))
  {
    if c.name.None? || ToolNamed(c.name.value).None? then Failure(UnknownTool(c.name))
    else if c.parsedArgs.None? then Failure(MalformedArguments)
    else match Invoke(ToolNamed(c.name.value).value, c.parsedArgs.value)
      case Checked(v) => Success(ToolOutput(CallIdOf(c), c.name.value, Checked(v)))
      case InvocationError(fault, _) => Failure(BadArguments(fault))
  }

  /** A loop that stops at the first exception: the results of `f` on every
      element of `xs`, in order, or the first failure `f` returns. */
  function Collect<A, T, E>(xs: seq<A>, f: A -> Result<T, E>): Result<seq<T>, E> {
    if xs == [] then Success([])
    else match Collect(xs[..|xs| - 1], f)
      case Failure(e) => Failure(e)
      case Success(done) =>
        match f(xs[|xs| - 1])
        case Failure(e) => Failure(e)
        case Success(y) => Success(done + [y])
  }

  /** When `f` succeeds on every element, so does the loop, with the
      results in element order. */
  lemma {:induction false} CollectSucceeds<A, T, E>(xs: seq<A>, f: A -> Result<T, E>)
    requires forall i :: 0 <= i < |xs| ==> f(xs[i]).Success?
    ensures Collect(xs, f).Success?
    ensures |Collect(xs, f).value| == |xs|
    ensures forall i :: 0 <= i < |xs| ==> Collect(xs, f).value[i] == f(xs[i]).value
  {
    if xs != [] {
      var init := xs[..|xs| - 1];
      assert forall i :: 0 <= i < |init| ==> init[i] == xs[i];
      CollectSucceeds(init, f);
    }
  }

  /** The first element on which `f` fails decides the loop's failure,
      whatever follows it. */
  lemma {:induction false} CollectFirstFailure<A, T, E>(xs: seq<A>, f: A -> Result<T, E>, j: nat)
    requires j < |xs| && f(xs[j]).Failure?
    requires forall i :: 0 <= i < j ==> f(xs[i]).Success?
    ensures Collect(xs, f) == Failure(f(xs[j]).error)
  {
    var init := xs[..|xs| - 1];
    assert forall i :: 0 <= i < |init| ==> init[i] == xs[i];
    if j == |xs| - 1 {
      CollectSucceeds(init, f);
    } else {
      CollectFirstFailure(init, f, j);
    }
  }

  /** One more element: the loop goes on with its result, or stops at its
      failure. */
  lemma CollectExtend<A, T, E>(xs: seq<A>, f: A -> Result<T, E>, i: nat, done: seq<T>)
    requires i < |xs| && Collect(xs[..i], f) == Success(done)
    ensures Collect(xs[..i + 1], f) ==
      match f(xs[i])
      case Failure(e) => Failure(e)
      case Success(y) => Success(done + [y])
  {
    assert xs[..i + 1][..i] == xs[..i];
  }

  /** Once a prefix fails, the whole loop fails the same way. */
  lemma {:induction false} CollectPrefixFailure<A, T, E>(xs: seq<A>, f: A -> Result<T, E>, n: nat)
    requires n <= |xs| && Collect(xs[..n], f).Failure?
    ensures Collect(xs, f) == Collect(xs[..n], f)
    decreases |xs| - n
  {
    if n < |xs| {
      assert xs[..n + 1][..n] == xs[..n];
      CollectPrefixFailure(xs, f, n + 1);
    } else {
      assert xs[..n] == xs;
    }
  }

  /** The loop over the tool calls: the outputs of all of them, or the
      failure of the first one that raises. */
  function ExecuteAll(calls: seq<Call>): Result<seq<ToolOutput>, Failure> {
    Collect(calls, Step)
  }

  /** When every call is well formed, the loop produces one output per
      call, in order: the one `Step` computes for that call. */
  lemma AllWellFormedRun(calls: seq<Call>)
    requires forall c :: c in calls ==> WellFormed(c)
    ensures ExecuteAll(calls).Success?
    ensures |ExecuteAll(calls).value| == |calls|
    ensures forall i :: 0 <= i < |calls| ==> ExecuteAll(calls).value[i] == Step(calls[i]).value
  {
    forall i | 0 <= i < |calls|
      ensures Step(calls[i]).Success?
    {
      assert calls[i] in calls;
    }
    CollectSucceeds(calls, Step);
  }

  /** The first call that is not well formed aborts the loop with its own
      failure, whatever follows it. */
  lemma FirstFaultAborts(calls: seq<Call>, j: nat)
    requires j < |calls| && !WellFormed(calls[j])
    requires forall i :: 0 <= i < j ==> WellFormed(calls[i])
    ensures ExecuteAll(calls) == Failure(Step(calls[j]).error)
  {
    CollectFirstFailure(calls, Step, j);
  }

  /** The run, as a function of the backend's planning reply. */
  function Run(reply: Reply): Outcome {
    match reply
    case Raised => Aborted(PlanningFailed)
    case Replied(m) =>
      if m.toolCalls == [] then NoToolsNeeded
      else match ExecuteAll(m.toolCalls)
        case Failure(f) => Aborted(f)
        case Success(outputs) => Summarize(m, outputs)
  }

  /** A run reaches the summarising request exactly when the model asked
      for at least one tool and every call it asked for is well formed; it
      then has one output per call, in order, each naming that call's tool. */
  lemma SummarizeIff(reply: Reply)
    ensures Run(reply).Summarize? <==>
      reply.Replied? && reply.message.toolCalls != [] && forall c :: c in reply.message.toolCalls ==> WellFormed(c)
    ensures Run(reply).Summarize? ==>
      var calls := reply.message.toolCalls;
      && |Run(reply).outputs| == |calls|
      && forall i :: 0 <= i < |calls| ==>
        Some(Run(reply).outputs[i].name) == calls[i].name && Run(reply).outputs[i].callId == CallIdOf(calls[i])
  {
    if reply.Replied? && reply.message.toolCalls != [] {
      var calls := reply.message.toolCalls;
      if forall c :: c in calls ==> WellFormed(c) {
        AllWellFormedRun(calls);
      } else {
        var c :| c in calls && !WellFormed(c);
        var j := FirstBad(calls);
        FirstFaultAborts(calls, j);
      }
    }
  }

  /** Index of the first call that is not well formed. */
  function FirstBad(calls: seq<Call>): (j: nat)
    requires exists c :: c in calls && !WellFormed(c)
    ensures j < |calls| && !WellFormed(calls[j])
    ensures forall i :: 0 <= i < j ==> WellFormed(calls[i])
  {
    if !WellFormed(calls[0]) then 0
    else
      assert exists c :: c in calls[1..] && !WellFormed(c) by {
        var c :| c in calls && !WellFormed(c);
        var k :| 0 <= k < |calls| && calls[k] == c;
        assert calls[1..][k - 1] == c;
      }
      1 + FirstBad(calls[1..])
  }

  /** `run_agent` from planning to the end of the execution loop. */
  method RunValidationAgent(reply: Reply) returns (outcome: Outcome)
    ensures outcome == Run(reply)
  {
    if reply.Raised? {
      return Aborted(PlanningFailed);
    }
    var toolCalls := reply.message.toolCalls;
    if toolCalls == [] {
      return NoToolsNeeded;
    }
    var toolOutputs: seq<ToolOutput> := [];
    for i := 0 to |toolCalls|
      invariant ExecuteAll(toolCalls[..i]) == Success(toolOutputs)
    {
      CollectExtend(toolCalls, Step, i, toolOutputs);
      var call := toolCalls[i];
      var callId := CallIdOf(call);
      var toolName := call.name;
      if toolName.None? || ToolNamed(toolName.value).None? {
        assert Step(call) == Failure(UnknownTool(toolName));
        CollectPrefixFailure(toolCalls, Step, i + 1);
        return Aborted(UnknownTool(toolName));
      }
      var tool := ToolNamed(toolName.value).value;
      if call.parsedArgs.None? {
        assert Step(call) == Failure(MalformedArguments);
        CollectPrefixFailure(toolCalls, Step, i + 1);
        return Aborted(MalformedArguments);
      }
      var output := Invoke(tool, call.parsedArgs.value);
      if output.InvocationError? {
        assert Step(call) == Failure(BadArguments(output.fault));
        CollectPrefixFailure(toolCalls, Step, i + 1);
        return Aborted(BadArguments(output.fault));
      }
      assert Step(call) == Success(ToolOutput(callId, toolName.value, output));
      toolOutputs := toolOutputs + [ToolOutput(callId, toolName.value, output)];
    }
    assert toolCalls[..|toolCalls|] == toolCalls;
    outcome := Summarize(reply.message, toolOutputs);
  }
}
