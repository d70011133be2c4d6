# VNF pre-check agent, modelled in Dafny

The repository holds two versions of a small "plan, execute, summarise" agent
that validates a VNF (virtual network function) package by file name. A chat
model is asked which of three local checks to run. The checks run on the file
name, and the model then summarises the results.

This project models the deterministic core of both scripts. The part before the
summarising request is modelled in full:

- `Checks` is the check registry both scripts share (the three checks are
  textually identical in the two files). It holds the three tools, their
  registered names and docstrings, and the verdict records. Each check is
  characterised exactly: structure, trusted vendor, `highcpu` resource limit.
- `Extraction` models `_extract_file_name`, the search for
  `([\w.-]+\.(zip|rar|tar\.gz))` with `re.IGNORECASE`. `Candidate` states it
  declaratively: a span of name characters ending in an archive extension, with
  at least one character before the extension. `Selected` picks the leftmost
  start and then the farthest end. A recursive scanner that works like the regex
  engine is proved to return exactly that span, or `None` exactly when no
  candidate exists. The engine tries each start in turn and lets the greedy `+`
  back off to the last extension in the run. No word boundary is needed, so
  `foo.zipper` gives `foo.zip`.
- `Messages` holds the shared shapes: tool-call requests, the planning message,
  tool outputs, tool descriptions, and the `tool(**args)` call, which raises
  `TypeError` unless the arguments are exactly `file_name`.
- `Agent` models `vnf_agent.py`:
  - the tool schema built by a loop;
  - plan selection (only `openai`/`azure` are asked; a planning request that
    raises counts as no response);
  - the heuristic fallback;
  - argument repair;
  - the execution loop, which skips unknown tools and turns a bad call into an
    `{error, args}` record.

  `RunAgent` and its execution loop `ExecutePlan` are imperative. They are
  proved equal to `Run` and `Executed` for either name resolution, and the lemmas about `Run`,
  `Executed` and `Kept` state what a run produces.
- `ValidationAgent` models `vnf_validation_agent.py`. It has tool descriptions
  without parameters, no fallback, and a loop in which an unknown tool,
  undecodable arguments or a wrong argument set aborts the whole run
  (`Aborted`), as does a planning request that raises.

The shape probing in `run_agent` (getattr/isinstance) is replaced by a `Shape`
tag on each plan entry:

- A `tool_calls` object keeps its id. When the id is empty, the output gets the
  hash-based id.
- A plain dict from the fallback plan has no attributes. Its `"fallback_1"` id
  is never read, so its outputs carry the hash-based id (`Hashed`).
- A legacy `function_call` object is covered under Findings.

A malformed argument payload does not by itself give an error record. The empty
argument map gets `file_name` from the goal whenever extraction succeeds, and
then the check runs normally. Only when nothing can be extracted is the output
the missing-argument error (`Agent.MalformedArgumentsOutput`).

The execution loop of `vnf_agent.py` takes the tool-name resolution as a
parameter (`Agent.Lookup`). `AsWritten` is `run_agent` as written, including
its handling of legacy `function_call` entries; `Corrected` reads the name
from the call in every shape (see Findings). Every lemma about `Run`,
`Executed` and `Kept` holds for both, unless it names one.

## Model

| member | source | states |
|---|---|---|
| `Checks.CheckPackageStructure` | vnf_agent.py:42-49 | A name not ending in the case-sensitive `.zip` gives exactly the extension-failure verdict. Otherwise the name is valid iff the stem holds at least two `_` (splits into at least three pieces). An invalid name gets the naming reason and a valid one the success reason. |
| `Checks.CheckSecurityCompliance` | vnf_agent.py:51-58 | Compliant iff the lower-cased prefix before the first `_` (the whole name if there is none) is cisco, juniper or paloalto. The reason quotes that prefix in its original case, with "is trusted." or "is not trusted.". |
| `Checks.CheckResourceRequirements` | vnf_agent.py:60-65 | Not within limits iff `highcpu` occurs somewhere in the name, in any case. The reason matches the verdict. |
| `Checks.ToolNamed` | vnf_agent.py:121-125 | Registry lookup: a found tool is registered under exactly that name. `None` means no tool has that name. |
| `Checks.RegistryWellFormed` | vnf_agent.py:121-125 | Every tool is in the registry and is found by its own name, and the registered names are pairwise distinct. |
| `Checks.RunCheck` | vnf_agent.py:197 | Calling a tool gives the verdict shape of that tool and no other. |
| `Checks.ConventionalNameIsValid` | vnf_validation_agent.py:17-21 | Every `vendor_name_version.zip` name passes the structure check. |
| `Checks.ComplianceByVendor` | vnf_validation_agent.py:26-30 | For `vendor_rest` with an underscore-free vendor, the verdict is compliant iff the vendor is trusted in any casing, whatever follows. |
| `Checks.HighCpuAnyCase` | vnf_validation_agent.py:35-37 | A name containing `highcpu` in any mix of case, anywhere, is over the limit. |
| `Text.SplitCount` | vnf_agent.py:47 | `str.split` on `_` yields exactly one piece more than the number of underscores. |
| `Text.SplitJoin` | vnf_agent.py:47 | Joining the pieces with the separator restores the string (split's inverse). |
| `Text.SplitPiecesFree` | vnf_agent.py:47 | No piece contains the separator. |
| `Text.SplitFirst` | vnf_agent.py:54 | The first piece is the text before the first separator, or the whole string. |
| `Extraction.ExtractFileName` | vnf_agent.py:92-95 | `None` iff the goal holds no candidate span. Otherwise the result is the text of the selected span: leftmost start, then farthest end. |
| `Extraction.SearchFrom` | vnf_agent.py:94 | The search returns the first start position holding a candidate and the farthest end there. `None` iff no later start holds one. |
| `Extraction.MatchAt` | vnf_agent.py:94 | At a fixed start, the end found is a candidate and no candidate there ends later. `None` iff there is no candidate at that start. |
| `Extraction.LastExtensionBefore` | vnf_agent.py:94 | The greedy back-off finds the largest position in range where an extension begins, or proves that none does. |
| `Extraction.RunEnd` | vnf_agent.py:94 | The end of the maximal run of `[\w.-]` characters at a start. |
| `Extraction.NoOverlap` | vnf_agent.py:94 | Extensions that begin later end no earlier, so the last extension gives the longest match. |
| `Extraction.ExtractedNameShape` | vnf_agent.py:94-95 | An extracted name is longer than four characters and is made of name characters only. It ends in `.zip`, `.rar` or `.tar.gz` (any case), with at least one character in front. |
| `Extraction.SelectedUnique` | vnf_agent.py:94-95 | At most one span is selected, so the extracted name is determined. |
| `Extraction.NoWordBoundary` | vnf_agent.py:94 | `foo.zipper` yields `foo.zip`. |
| `Messages.Invoke` | vnf_agent.py:196-200 | `tool(**args)` runs the check on `args["file_name"]` iff the keys are exactly `{file_name}`. Otherwise the output is an error record carrying the arguments: an unexpected keyword, or a missing `file_name` iff the map is empty. |
| `Agent.BuildToolsSchema` | vnf_agent.py:67-89 | One entry per tool, in the given order. Each is named after its tool, described by its docstring (never by the name fallback, since every tool has one), and carries the shared parameter block. |
| `Agent.FileNameParameters` | vnf_agent.py:76-85 | The shared parameter block declares `file_name` as its only property, a string with the documented description, and as the only required parameter. |
| `Agent.PlanningResponse` | vnf_agent.py:136-148 | There is a planning message iff the provider is openai or azure and the request returned. A raised request is treated as no response. |
| `Agent.SelectPlan` | vnf_agent.py:150-158 | A non-empty `tool_calls` list is the plan, entry for entry and in order. Otherwise a present `function_call` is a one-entry plan. Otherwise the plan is empty. |
| `Agent.FallbackPlan` | vnf_agent.py:161-169 | One entry per registered tool, in registry order. Each has id `fallback_1`, that tool's name and arguments `{file_name: extracted}`. |
| `Agent.CallIdOf` | vnf_agent.py:180 | Only non-dict entries get an id from the call. A tool-call object gets its own id iff that id is a non-empty string. A legacy call gets its name as id iff that name is a non-empty string. Otherwise the id is the hash-based one. |
| `Agent.ToolNameAsWritten` | vnf_agent.py:182-185 | As written, a legacy `function_call` entry resolves to no tool name. The other shapes resolve to the call's name. |
| `Agent.ToolName` | vnf_agent.py:182-186 | The tool name the loop looks up: as written for `AsWritten`, the call's own name for `Corrected`. The two agree on every entry that is not a legacy `function_call`. |
| `Agent.SafeArgs` | vnf_agent.py:98-103 | `_safe_json_loads` never raises: decodable argument text gives its object, and empty or undecodable text gives `{}`. |
| `Agent.AsWrittenRunsLess` | vnf_agent.py:182-186 | An entry that runs as written also runs once corrected, and a legacy entry never runs as written. |
| `Agent.LookupsAgree` | vnf_agent.py:178-206 | On a plan without legacy entries, both resolutions register the same entries and give the same outputs, so the correction changes nothing there. |
| `Agent.ResolveArgs` | vnf_agent.py:189-195 | `file_name` is present afterwards iff it was given or extraction succeeds. A given `file_name` is never overwritten. A filled one is the extracted name. Every other key and value is unchanged. |
| `Agent.Output` | vnf_agent.py:196-206 | An output carries its entry's id and tool name, and the result of invoking that tool on the repaired arguments. |
| `Agent.KeptBounds` | vnf_agent.py:186-188 | Every kept entry is a registered entry of the plan, so at most the plan's length is kept. With all entries registered nothing is dropped; with none registered nothing is kept. |
| `Agent.ExecutedIsKept` | vnf_agent.py:178-206 | The outputs are exactly the registered entries' outputs, in plan order. |
| `Agent.ExecutionFacts` | vnf_agent.py:178-206 | At most one output per entry, each naming a registered tool. When every entry is registered, the i-th output belongs to the i-th entry. When none is, there are no outputs. |
| `Agent.NothingToValidateIff` | vnf_agent.py:160-172 | The run stops with nothing to validate iff the model gave no plan and the goal holds no candidate file name. |
| `Agent.FallbackOutputs` | vnf_agent.py:161-169 | Executing the fallback plan on a name runs every registered check on that name, once each, in registry order, with hash-based ids, whatever the goal. |
| `Agent.FallbackRunsEveryCheck` | vnf_agent.py:161-172 | Without a model plan, a goal naming a file runs each registered check once, in registry order, on the extracted name, with hash-based ids. |
| `Agent.NoPlanningFallsBack` | vnf_agent.py:137-148 | A provider without tool calling, or a planning request that raises, leaves the run to the fallback. |
| `Agent.ModelPlanExecuted` | vnf_agent.py:152-158 | A non-empty `tool_calls` list is executed as the plan: at most one output per call. If every call names a registered tool, there is exactly one output per call, in order, with that call's name and id. |
| `Agent.MalformedArgumentsOutput` | vnf_agent.py:98-103 | Undecodable arguments still yield an output: the check on the extracted name, or the missing-argument error with empty arguments when nothing is extracted. |
| `Agent.LegacyCallSkippedAsWritten` | vnf_agent.py:150-206 | As written, a planning message carrying only a legacy `function_call` gives a run with zero outputs and no fallback, whatever tool the call names. |
| `Agent.LegacyCallRuns` | vnf_agent.py:154-158 | With the corrected lookup, a message carrying only a legacy `function_call` for a registered tool gives exactly one output, for that tool, with the tool's name as id. |
| `Agent.ExecutePlan` | vnf_agent.py:178-206 | The imperative execution loop returns exactly `Executed` for the given name resolution: one output per registered entry, in plan order (see `Agent.ExecutedIsKept`). With `AsWritten` it skips legacy entries as the source does. |
| `Agent.RunAgent` | vnf_agent.py:136-206 | The imperative plan/fallback/execute sequence returns exactly `Run` for the given name resolution. |
| `ValidationAgent.ToolDefinitions` | vnf_validation_agent.py:54 | One description per tool, in registry order. Each is named after its tool, described by its docstring, and has no parameter schema. |
| `ValidationAgent.CallIdOf` | vnf_validation_agent.py:70 | The output id is the call's own id exactly when the call has one, else the hash-based id. |
| `ValidationAgent.Step` | vnf_validation_agent.py:70-75 | A call succeeds iff its tool is registered and its arguments decode to exactly `file_name`. It then records the call's id, the tool name and that check's verdict. An unregistered or absent name fails with `UnknownTool` before anything else. |
| `ValidationAgent.AllWellFormedRun` | vnf_validation_agent.py:68-75 | When every call is well formed, there is one output per call, in order. |
| `ValidationAgent.FirstFaultAborts` | vnf_validation_agent.py:69-74 | The first call that is not well formed aborts the loop with its own failure, whatever follows it. |
| `ValidationAgent.CollectSucceeds` | vnf_validation_agent.py:68-75 | A loop that stops at the first exception completes when every step succeeds, with one result per element, in order. |
| `ValidationAgent.CollectFirstFailure` | vnf_validation_agent.py:68-75 | The first failing step decides the loop's failure, whatever follows it. |
| `ValidationAgent.CollectExtend` | vnf_validation_agent.py:68-75 | One more iteration either appends the step's result or stops at its failure. |
| `ValidationAgent.CollectPrefixFailure` | vnf_validation_agent.py:68-75 | A failure part-way through is the failure of the whole loop. |
| `ValidationAgent.SummarizeIff` | vnf_validation_agent.py:59-75 | The run reaches summarising iff the model asked for at least one tool and every call is well formed. It then has one output per call, in order, naming that call's tool and id. |
| `ValidationAgent.RunValidationAgent` | vnf_validation_agent.py:59-76 | The imperative loop with early returns returns exactly `Run`. That is: a raised planning request aborts, no tool calls means no tools needed, and the first bad call aborts. |

## Findings

| source | as written | input that shows it | evidently intended | confidence | as-written member | corrected member |
|---|---|---|---|---|---|---|
| vnf_agent.py:182-185 | For a legacy `function_call` object, `fn_meta` becomes the name string. A string has no `name` attribute, so `tool_name` is `None` and line 186 skips the call. | Provider `openai`, a planning message with no `tool_calls` and `function_call` = (name `check_security_compliance`, arguments `{"file_name": "cisco_fw_1.zip"}`): as written the run has zero outputs. | Run the named check on the call's arguments. Line 154 says both shapes are supported, and line 180 already reads the legacy call's `name` as its id. | high; not executed | `Agent.LegacyCallSkippedAsWritten` | `Agent.LegacyCallRuns` |

The executor (`Agent.Registered`, `Agent.Output`, `Agent.Executed`,
`Agent.ExecutePlan`, `Agent.Run`, `Agent.RunAgent`) takes the resolution as a
parameter. With `AsWritten` it is the code as written (`Agent.ToolNameAsWritten`);
with `Corrected` it reads the name from the call in every shape.
`Agent.LookupsAgree` shows that the correction changes nothing for plans
without legacy entries.

## Left out

- Client construction and environment configuration (vnf_agent.py:9-39, vnf_validation_agent.py:7-11): process I/O. The provider name is a parameter of the run.
- `_call_llm` and the `chat.completions.create` calls (vnf_agent.py:106-112, vnf_validation_agent.py:59 and 81): network calls. Their results enter the model as a `Reply` (raised, or the returned message).
- The summarising phase and the degraded report (vnf_agent.py:209-225, vnf_validation_agent.py:78-83): message assembly and `json.dumps` formatting around a network call. A run ends at `Summarize`, which carries what that phase would receive.
- JSON text: `json.loads` of arguments is abstracted as `Option<map<string, string>>`, where `None` means undecodable or empty text. `json.dumps` of a verdict is the `Verdict` datatype. The fallback plan's `json.dumps({"file_name": ...})` is taken to decode back to the same map.
- Arguments that decode to something other than an object, and `file_name` values that are not strings: they would raise outside the handled `TypeError`, so arguments are string-to-string maps.
- `Messages.Invoke`: the `TypeError` message text, and which unexpected key Python names, are not modelled; only the kind of fault is (`ArgFault`).
- Hash-based ids `call_{hash(str(call))}`: Python salts string hashes per process, so the id is the opaque `Hashed`.
- The `getattr`/`isinstance` probing itself: replaced by the `Shape` tag of a plan entry, with the outcomes it produces for each shape.
- The constant `role: "tool"` of every output, the `type: "function"` wrapper of every tool description, and all `print` logging.
- Unicode: `\w`, `IGNORECASE` and `str.lower()` are modelled on ASCII only. Non-ASCII characters are not name characters here, and lower-casing leaves them unchanged.
- The `__main__` example runs (vnf_agent.py:227-229, vnf_validation_agent.py:86-88).
