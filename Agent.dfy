/** `vnf_agent.py`: the tool schema, plan selection, the heuristic fallback,
    argument repair and the execution loop of `run_agent`, up to the point
    where the tool outputs are handed to the summarising request. */
module Agent {
  import opened Wrappers
  import opened Checks
  import opened Extraction
  import opened Messages

  const FILE_NAME_DESCRIPTION := "Name of the VNF package file to validate (e.g. vendor_product_version.zip)."

  /** The parameter block every tool description carries. */
  const FILE_NAME_PARAMETERS := Parameters(map["file_name" := Parameter("string", FILE_NAME_DESCRIPTION)], ["file_name"])

  /** `_build_tools_schema`: one function description per registered tool,
      in registry order, each declaring `file_name` as its single, required,
      string parameter. */
  method BuildToolsSchema(tools: seq<Tool>) returns (schema: seq<FunctionSpec>)
    ensures |schema| == |tools|
    ensures forall i :: 0 <= i < |tools| ==>
      schema[i] == FunctionSpec(Name(tools[i]), Doc(tools[i]), Some(FILE_NAME_PARAMETERS))
  {
    schema := [];
    for i := 0 to |tools|
      invariant |schema| == i
      invariant forall j :: 0 <= j < i ==>
        schema[j] == FunctionSpec(Name(tools[j]), Doc(tools[j]), Some(FILE_NAME_PARAMETERS))
    {
      var t := tools[i];
      DocNonEmpty(t);
      var description := if Doc(t) != "" then Doc(t) else Name(t);
      schema := schema + [FunctionSpec(Name(t), description, Some(FILE_NAME_PARAMETERS))];
    }
  }

  /** The parameter block declares `file_name` as the single, required,
      string parameter. */
  lemma FileNameParameters()
    ensures FILE_NAME_PARAMETERS.properties.Keys == {"file_name"}
    ensures FILE_NAME_PARAMETERS.properties["file_name"] == Parameter("string", FILE_NAME_DESCRIPTION)
    ensures FILE_NAME_PARAMETERS.required == ["file_name"]
  {
  }

  /** The shape of a plan entry decides how `run_agent` reads its id, tool
      name and arguments: a `tool_calls` object, the legacy `function_call`
      object, or a plain dict of the fallback plan. */
  datatype Shape = ToolCallObject | FunctionCallObject | PlainDict

  datatype PlanEntry = PlanEntry(shape: Shape, call: Call)

  /** Only the `openai` and `azure` providers are asked for a plan. */
  predicate PlanningRequested(provider: string) {
    provider == "openai" || provider == "azure"
  }

  /** The planning message, when a planning request was made and returned;
      a request that raised counts as no response. */
  function PlanningResponse(provider: string, reply: Reply): (r: Option<Message>)
    ensures r.Some? <==> PlanningRequested(provider) && reply.Replied?
    ensures r.Some? ==> r.value == reply.message
  {
    if PlanningRequested(provider) && reply.Replied? then Some(reply.message) else None
  }

  /** The model's plan: a non-empty `tool_calls` list as it is, else a
      present legacy `function_call` alone, else nothing. */
  function SelectPlan(response: Option<Message>): (plan: seq<PlanEntry>)
    ensures response.None? ==> plan == []
    ensures response.Some? && response.value.toolCalls != [] ==>
      && |plan| == |response.value.toolCalls|
      && forall i :: 0 <= i < |plan| ==> plan[i] == PlanEntry(ToolCallObject, response.value.toolCalls[i])
    ensures response.Some? && response.value.toolCalls == [] ==>
      plan == if response.value.functionCall.Some? then [PlanEntry(FunctionCallObject, response.value.functionCall.value)] else []
  {
    match response
    case None => []
    case Some(m) =>
      if m.toolCalls != [] then seq(|m.toolCalls|, i requires 0 <= i < |m.toolCalls| => PlanEntry(ToolCallObject, m.toolCalls[i]))
      else if m.functionCall.Some? then [PlanEntry(FunctionCallObject, m.functionCall.value)]
      else []
  }

  const FALLBACK_ID := "fallback_1"

  /** The heuristic plan: every registered tool, in registry order, on the
      extracted file name. */
  function FallbackPlan(fileName: string): (plan: seq<PlanEntry>)
    ensures |plan| == |REGISTRY|
    ensures forall i :: 0 <= i < |plan| ==>
      plan[i] == PlanEntry(PlainDict, Call(Some(FALLBACK_ID), Some(Name(REGISTRY[i])), Some(map["file_name" := fileName])))
  {
    seq(|REGISTRY|, i requires 0 <= i < |REGISTRY| =>
      PlanEntry(PlainDict, Call(Some(FALLBACK_ID), Some(Name(REGISTRY[i])), Some(map["file_name" := fileName]))))
  }

  /** The `tool_call_id` an output gets: the call's id when it is a
      non-empty string, else the legacy call's name when non-empty, else the
      hash-based id. A plain dict has no attributes, so the fallback plan's
      ids are never used. */
  function CallIdOf(e: PlanEntry): (id: CallId)
    ensures id.Given? ==> e.shape != PlainDict
    ensures e.shape == ToolCallObject ==> (id.Given? <==> e.call.id.Some? && e.call.id.value != "")
    ensures e.shape == ToolCallObject && id.Given? ==> id == Given(e.call.id.value)
    ensures e.shape == FunctionCallObject ==> (id.Given? <==> e.call.name.Some? && e.call.name.value != "")
    ensures e.shape == FunctionCallObject && id.Given? ==> id == Given(e.call.name.value)
  {
    match e.shape
    case ToolCallObject => if e.call.id.Some? && e.call.id.value != "" then Given(e.call.id.value) else Hashed
    case FunctionCallObject => if e.call.name.Some? && e.call.name.value != "" then Given(e.call.name.value) else Hashed
    case PlainDict => Hashed
  }

  /** The tool name as the shape probing actually resolves it. For a legacy
      `function_call` object, `fn_meta` becomes the name string itself and
      a string has no `name` attribute, so the name is lost. */
  function ToolNameAsWritten(e: PlanEntry): (name: Option<string>)
    ensures e.shape == FunctionCallObject ==> name.None?
    ensures e.shape != FunctionCallObject ==> name == e.call.name
  {
    if e.shape == FunctionCallObject then None else e.call.name
  }

  /** Which tool-name resolution the execution loop runs: the shape probing
      as written, or the intended one, which reads the name from the call in
      every shape. */
  datatype Lookup = AsWritten | Corrected

  /** The tool name an entry resolves to. The two resolutions differ only
      on legacy `function_call` entries. */
  function ToolName(lookup: Lookup, e: PlanEntry): (name: Option<string>)
    ensures lookup == AsWritten ==> name == ToolNameAsWritten(e)
    ensures lookup == Corrected ==> name == e.call.name
    ensures e.shape != FunctionCallObject ==> name == e.call.name
  {
    match lookup
    case AsWritten => ToolNameAsWritten(e)
    case Corrected => e.call.name
  }

  /** The entry names a registered tool; other entries are skipped. */
  predicate Registered(lookup: Lookup, e: PlanEntry) {
    ToolName(lookup, e).Some? && ToolNamed(ToolName(lookup, e).value).Some?
  }

  /** `_safe_json_loads`: argument text that is empty or does not decode
      gives `{}`. */
  function SafeArgs(parsed: Option<map<string, string>>): (args: map<string, string>)
    ensures parsed.None? ==> args == map[]
    ensures parsed.Some? ==> args == parsed.value
  {
    parsed.GetOr(map[])
  }

  /** The arguments a call is invoked with: an explicit `file_name` is kept
      as it is, a missing one is filled from the goal when extraction
      succeeds, and no other key is touched. */
  function ResolveArgs(goal: string, parsed: Option<map<string, string>>): (args: map<string, string>)
    ensures "file_name" in args <==> "file_name" in SafeArgs(parsed) || ExtractFileName(goal).Some?
    ensures "file_name" in SafeArgs(parsed) ==> args == SafeArgs(parsed)
    ensures "file_name" !in SafeArgs(parsed) && "file_name" in args ==> args["file_name"] == ExtractFileName(goal).value
    ensures args.Keys - {"file_name"} == SafeArgs(parsed).Keys - {"file_name"}
    ensures forall k :: k in SafeArgs(parsed) && k != "file_name" ==> k in args && args[k] == SafeArgs(parsed)[k]
  {
    var args := SafeArgs(parsed);
    if "file_name" !in args && ExtractFileName(goal).Some? then args["file_name" := ExtractFileName(goal).value]
    else args
  }

  /** The output a registered entry produces. */
  function Output(lookup: Lookup, goal: string, e: PlanEntry): (o: ToolOutput)
    requires Registered(lookup, e)
    ensures o.name == ToolName(lookup, e).value && o.callId == CallIdOf(e)
    ensures o.content == Invoke(ToolNamed(o.name).value, ResolveArgs(goal, e.call.parsedArgs))
  {
    ToolOutput(CallIdOf(e), ToolName(lookup, e).value, Invoke(ToolNamed(ToolName(lookup, e).value).value, ResolveArgs(goal, e.call.parsedArgs)))
  }

  /** The outputs of the execution loop over `plan`: one per registered
      entry, in plan order. */
  function Executed(lookup: Lookup, goal: string, plan: seq<PlanEntry>): seq<ToolOutput> {
    if plan == [] then []
    else
      var last := plan[|plan| - 1];
      Executed(lookup, goal, plan[..|plan| - 1]) + (if Registered(lookup, last) then [Output(lookup, goal, last)] else [])
  }

  /** The registered entries of `plan`, in plan order. */
  function Kept(lookup: Lookup, plan: seq<PlanEntry>): seq<PlanEntry> {
    if plan == [] then []
    else if Registered(lookup, plan[0]) then [plan[0]] + Kept(lookup, plan[1..])
    else Kept(lookup, plan[1..])
  }

  lemma {:induction false} KeptAppend(lookup: Lookup, plan: seq<PlanEntry>, e: PlanEntry)
    ensures Kept(lookup, plan + [e]) == Kept(lookup, plan) + (if Registered(lookup, e) then [e] else [])
  {
    if plan != [] {
      assert (plan + [e])[0] == plan[0];
      assert (plan + [e])[1..] == plan[1..] + [e];
      KeptAppend(lookup, plan[1..], e);
    } else {
      assert [e][1..] == [];
    }
  }

  /** Execution preserves plan order and skips exactly the unregistered
      entries: the outputs are the registered entries' outputs, in order. */
  lemma {:induction false} ExecutedIsKept(lookup: Lookup, goal: string, plan: seq<PlanEntry>)
    ensures |Executed(lookup, goal, plan)| == |Kept(lookup, plan)|
    ensures forall i :: 0 <= i < |Kept(lookup, plan)| ==> Registered(lookup, Kept(lookup, plan)[i]) && Executed(lookup, goal, plan)[i] == Output(lookup, goal, Kept(lookup, plan)[i])
  {
    if plan != [] {
      var init, last := plan[..|plan| - 1], plan[|plan| - 1];
      assert plan == init + [last];
      ExecutedIsKept(lookup, goal, init);
      KeptAppend(lookup, init, last);
    }
  }

  /** Every kept entry is an entry of the plan, so there are never more
      outputs than plan entries; with every name registered nothing is
      dropped, and with none registered nothing runs. */
  lemma {:induction false} KeptBounds(lookup: Lookup, plan: seq<PlanEntry>)
    ensures |Kept(lookup, plan)| <= |plan|
    ensures forall e :: e in Kept(lookup, plan) ==> e in plan && Registered(lookup, e)
    ensures (forall e :: e in plan ==> Registered(lookup, e)) ==> Kept(lookup, plan) == plan
    ensures (forall e :: e in plan ==> !Registered(lookup, e)) ==> Kept(lookup, plan) == []
  {
    if plan != [] {
      KeptBounds(lookup, plan[1..]);
      assert plan == [plan[0]] + plan[1..];
    }
  }

  /** What the execution loop promises: at most one output per entry, each
      naming a registered tool; when every entry is registered, exactly one
      output per entry, the i-th for the i-th entry. */
  lemma ExecutionFacts(lookup: Lookup, goal: string, plan: seq<PlanEntry>)
    ensures |Executed(lookup, goal, plan)| <= |plan|
    ensures forall o :: o in Executed(lookup, goal, plan) ==> ToolNamed(o.name).Some?
    ensures (forall e :: e in plan ==> Registered(lookup, e)) ==>
      && |Executed(lookup, goal, plan)| == |plan|
      && forall i :: 0 <= i < |plan| ==> Executed(lookup, goal, plan)[i] == Output(lookup, goal, plan[i])
    ensures (forall e :: e in plan ==> !Registered(lookup, e)) ==> Executed(lookup, goal, plan) == []
  {
    ExecutedIsKept(lookup, goal, plan);
    KeptBounds(lookup, plan);
    forall o | o in Executed(lookup, goal, plan)
      ensures ToolNamed(o.name).Some?
    {
      var i :| 0 <= i < |Executed(lookup, goal, plan)| && Executed(lookup, goal, plan)[i] == o;
      assert Registered(lookup, Kept(lookup, plan)[i]);
    }
  }

  /** How a run ends before the summarising request: with nothing to
      validate, or with the planning message and the tool outputs to
      summarise. */
  datatype Outcome = NothingToValidate | Summarize(planningMessage: Option<Message>, outputs: seq<ToolOutput>)

  /** The run, as a function of the goal, the provider and the backend's
      planning reply. */
  function Run(lookup: Lookup, goal: string, provider: string, reply: Reply): Outcome {
    var response := PlanningResponse(provider, reply);
    var plan := SelectPlan(response);
    if plan != [] then Summarize(response, Executed(lookup, goal, plan))
    else match ExtractFileName(goal)
      case None => NothingToValidate
      case Some(fileName) => Summarize(response, Executed(lookup, goal, FallbackPlan(fileName)))
  }

  /** `run_agent` from planning to the end of the execution loop. */
  method RunAgent(lookup: Lookup, goal: string, provider: string, reply: Reply) returns (outcome: Outcome)
    ensures outcome == Run(lookup, goal, provider, reply)
  {
    var response: Option<Message> := None;
    if PlanningRequested(provider) {
      match reply
      case Raised => response := None;
      case Replied(m) => response := Some(m);
    }

    var toolCalls: seq<PlanEntry> := [];
    if response.Some? {
      var m := response.value;
      if m.toolCalls != [] {
        toolCalls := seq(|m.toolCalls|, i requires 0 <= i < |m.toolCalls| => PlanEntry(ToolCallObject, m.toolCalls[i]));
      } else if m.functionCall.Some? {
        toolCalls := [PlanEntry(FunctionCallObject, m.functionCall.value)];
      }
    }

    if toolCalls == [] {
      var fileName := ExtractFileName(goal);
      if fileName.Some? {
        toolCalls := FallbackPlan(fileName.value);
      } else {
        return NothingToValidate;
      }
    }

    var toolOutputs := ExecutePlan(lookup, goal, toolCalls);
    outcome := Summarize(response, toolOutputs);
  }

  /** The execution loop of `run_agent`: unregistered entries are skipped,
      the others run on their repaired arguments, in plan order. */
  method ExecutePlan(lookup: Lookup, goal: string, toolCalls: seq<PlanEntry>) returns (toolOutputs: seq<ToolOutput>)
    ensures toolOutputs == Executed(lookup, goal, toolCalls)
  {
    toolOutputs := [];
    for i := 0 to |toolCalls|
      invariant toolOutputs == Executed(lookup, goal, toolCalls[..i])
    {
      assert toolCalls[..i + 1][..i] == toolCalls[..i];
      var call := toolCalls[i];
      var toolName := ToolName(lookup, call);
      if toolName.None? || ToolNamed(toolName.value).None? {
        continue;
      }
      var args := SafeArgs(call.call.parsedArgs);
      if "file_name" !in args {
        var extracted := ExtractFileName(goal);
        if extracted.Some? {
          args := args["file_name" := extracted.value];
        }
      }
      assert args == ResolveArgs(goal, call.call.parsedArgs);
      var output := Invoke(ToolNamed(toolName.value).value, args);
      toolOutputs := toolOutputs + [ToolOutput(CallIdOf(call), toolName.value, output)];
    }
    assert toolCalls[..|toolCalls|] == toolCalls;
  }

  /** A run ends with nothing to validate exactly when the model gave no
      plan and the goal holds no file name the pattern matches; then no
      output exists and no summarising request is made. */
  lemma NothingToValidateIff(lookup: Lookup, goal: string, provider: string, reply: Reply)
    ensures Run(lookup, goal, provider, reply) == NothingToValidate <==>
      SelectPlan(PlanningResponse(provider, reply)) == [] && forall p, e :: !Candidate(goal, p, e)
  {
    if SelectPlan(PlanningResponse(provider, reply)) == [] && ExtractFileName(goal).Some? {
      assert Run(lookup, goal, provider, reply).Summarize?;
    }
  }

  /** Without a plan from the model, a goal naming a file runs every
      registered check once, in registry order, on that file name; every
      output carries the hash-based id. */
  lemma FallbackRunsEveryCheck(lookup: Lookup, goal: string, provider: string, reply: Reply)
    requires SelectPlan(PlanningResponse(provider, reply)) == []
    requires ExtractFileName(goal).Some?
    ensures var outcome := Run(lookup, goal, provider, reply);
      && outcome.Summarize?
      && |outcome.outputs| == |REGISTRY|
      && forall i :: 0 <= i < |REGISTRY| ==>
        outcome.outputs[i] == ToolOutput(Hashed, Name(REGISTRY[i]), Checked(RunCheck(REGISTRY[i], ExtractFileName(goal).value)))
  {
    FallbackOutputs(lookup, goal, ExtractFileName(goal).value);
  }

  /** The fallback plan on `f` runs every registered check on `f`, in
      registry order, whatever the goal. */
  lemma FallbackOutputs(lookup: Lookup, goal: string, f: string)
    ensures |Executed(lookup, goal, FallbackPlan(f))| == |REGISTRY|
    ensures forall i :: 0 <= i < |REGISTRY| ==>
      Executed(lookup, goal, FallbackPlan(f))[i] == ToolOutput(Hashed, Name(REGISTRY[i]), Checked(RunCheck(REGISTRY[i], f)))
  {
    var plan := FallbackPlan(f);
    forall e | e in plan
      ensures Registered(lookup, e)
    {
      var i :| 0 <= i < |plan| && plan[i] == e;
      FallbackEntryOutput(lookup, goal, f, i);
    }
    ExecutionFacts(lookup, goal, plan);
    forall i | 0 <= i < |REGISTRY|
      ensures Executed(lookup, goal, plan)[i] == ToolOutput(Hashed, Name(REGISTRY[i]), Checked(RunCheck(REGISTRY[i], f)))
    {
      FallbackEntryOutput(lookup, goal, f, i);
    }
  }

  lemma FallbackEntryOutput(lookup: Lookup, goal: string, f: string, i: nat)
    requires i < |REGISTRY|
    ensures Registered(lookup, FallbackPlan(f)[i])
    ensures Output(lookup, goal, FallbackPlan(f)[i]) == ToolOutput(Hashed, Name(REGISTRY[i]), Checked(RunCheck(REGISTRY[i], f)))
  {
    var e := FallbackPlan(f)[i];
    RegistryWellFormed();
    assert ToolNamed(Name(REGISTRY[i])) == Some(REGISTRY[i]);
    assert ResolveArgs(goal, e.call.parsedArgs) == map["file_name" := f];
  }

  /** A provider that is not asked for a plan, or a planning request that
      raises, leaves the heuristic plan in charge. */
  lemma NoPlanningFallsBack(lookup: Lookup, goal: string, provider: string, reply: Reply)
    requires !PlanningRequested(provider) || reply.Raised?
    ensures Run(lookup, goal, provider, reply) ==
      match ExtractFileName(goal)
      case None => NothingToValidate
      case Some(f) => Summarize(None, Executed(lookup, goal, FallbackPlan(f)))
  {
  }

  /** A non-empty list of tool calls from the model is the plan, used as it
      is and in its order; the fallback plays no part. */
  lemma ModelPlanExecuted(lookup: Lookup, goal: string, provider: string, m: Message)
    requires PlanningRequested(provider) && m.toolCalls != []
    ensures var outcome := Run(lookup, goal, provider, Replied(m));
      && outcome.Summarize?
      && outcome.planningMessage == Some(m)
      && |outcome.outputs| <= |m.toolCalls|
      && ((forall c :: c in m.toolCalls ==> c.name.Some? && ToolNamed(c.name.value).Some?) ==>
           && |outcome.outputs| == |m.toolCalls|
           && forall i :: 0 <= i < |m.toolCalls| ==>
                outcome.outputs[i].name == m.toolCalls[i].name.value
                && outcome.outputs[i].callId == CallIdOf(PlanEntry(ToolCallObject, m.toolCalls[i])))
  {
    var plan := SelectPlan(Some(m));
    ExecutionFacts(lookup, goal, plan);
    if forall c :: c in m.toolCalls ==> c.name.Some? && ToolNamed(c.name.value).Some? {
      ModelPlanRegistered(lookup, m);
    }
  }

  /** When every call the model asked for names a registered tool, every
      entry of its plan is registered. */
  lemma ModelPlanRegistered(lookup: Lookup, m: Message)
    requires m.toolCalls != []
    requires forall c :: c in m.toolCalls ==> c.name.Some? && ToolNamed(c.name.value).Some?
    ensures forall e :: e in SelectPlan(Some(m)) ==> Registered(lookup, e)
  {
    var plan := SelectPlan(Some(m));
    forall e | e in plan
      ensures Registered(lookup, e)
    {
      var i :| 0 <= i < |plan| && plan[i] == e;
      assert m.toolCalls[i] in m.toolCalls;
    }
  }

  /** A registered call whose argument text does not decode still yields an
      output: the check on the goal's file name when one can be extracted,
      otherwise the missing-argument error record with empty arguments. */
  lemma MalformedArgumentsOutput(lookup: Lookup, goal: string, e: PlanEntry)
    requires Registered(lookup, e) && e.call.parsedArgs.None?
    ensures Output(lookup, goal, e).content ==
      match ExtractFileName(goal)
      case Some(f) => Checked(RunCheck(ToolNamed(ToolName(lookup, e).value).value, f))
      case None => InvocationError(MissingFileName, map[])
  {
    if ExtractFileName(goal).Some? {
      assert ResolveArgs(goal, None) == map["file_name" := ExtractFileName(goal).value];
    }
  }

  /** As written, a planning message that carries only a legacy
      `function_call` gives a run with no output at all: the entry's name
      resolves to `None`, line 186 skips it, and since the plan was not
      empty no fallback runs. This holds whatever tool the call names. */
  lemma LegacyCallSkippedAsWritten(goal: string, provider: string, c: Call)
    requires PlanningRequested(provider)
    ensures Run(AsWritten, goal, provider, Replied(Message([], Some(c)))) == Summarize(Some(Message([], Some(c))), [])
  {
    var m := Message([], Some(c));
    var e := PlanEntry(FunctionCallObject, c);
    assert PlanningResponse(provider, Replied(m)) == Some(m);
    assert SelectPlan(Some(m)) == [e];
    assert [e][..0] == [];
    assert !Registered(AsWritten, e);
    assert Executed(AsWritten, goal, [e]) == Executed(AsWritten, goal, []);
  }

  /** With the name resolved from the call itself, a planning message that
      carries only a legacy `function_call` naming a registered tool gives
      exactly one output, for that tool, identified by its name. */
  lemma LegacyCallRuns(goal: string, provider: string, c: Call)
    requires PlanningRequested(provider)
    requires c.name.Some? && c.name.value != "" && ToolNamed(c.name.value).Some?
    ensures var outcome := Run(Corrected, goal, provider, Replied(Message([], Some(c))));
      && outcome.Summarize?
      && |outcome.outputs| == 1
      && outcome.outputs[0].name == c.name.value
      && outcome.outputs[0].callId == Given(c.name.value)
  {
    var m := Message([], Some(c));
    var e := PlanEntry(FunctionCallObject, c);
    assert PlanningResponse(provider, Replied(m)) == Some(m);
    assert SelectPlan(Some(m)) == [e];
    assert [e][..0] == [];
    assert Executed(Corrected, goal, [e]) == [Output(Corrected, goal, e)];
  }

  /** The correction changes nothing for a plan without legacy entries:
      both resolutions register the same entries and produce the same
      outputs. */
  lemma {:induction false} LookupsAgree(goal: string, plan: seq<PlanEntry>)
    requires forall e :: e in plan ==> e.shape != FunctionCallObject
    ensures forall e :: e in plan ==> (Registered(AsWritten, e) <==> Registered(Corrected, e))
    ensures Executed(AsWritten, goal, plan) == Executed(Corrected, goal, plan)
  {
    if plan != [] {
      var init := plan[..|plan| - 1];
      assert forall e :: e in init ==> e in plan;
      LookupsAgree(goal, init);
      var last := plan[|plan| - 1];
      assert last in plan;
      if Registered(AsWritten, last) {
        assert Output(AsWritten, goal, last) == Output(Corrected, goal, last);
      }
    }
  }

  /** A legacy entry the as-written resolution registers does not exist:
      whatever runs as written also runs once corrected. */
  lemma AsWrittenRunsLess(e: PlanEntry)
    ensures Registered(AsWritten, e) ==> Registered(Corrected, e)
    ensures e.shape == FunctionCallObject ==> !Registered(AsWritten, e)
  {
  }
}
