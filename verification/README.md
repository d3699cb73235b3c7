# Code-agent step and code-block extraction, modelled in Dafny

These scripts run LLM code agents through an OpenAI-compatible gateway on top of
the `smolagents` framework. To cope with provider quirks they replace a few of
the framework's pieces. This project models the logic of those pieces:

- **Trailing code-block extraction.** There are three copies. Two are
  line-anchored, with the tags escaped (`extract_code_from_text` in
  `wrapped_agents.py` and in `poe_code_agent.py`). The third is unanchored
  (`extract_last_code_from_text` in `smolagents_workaround.py`). Each takes
  the content of the *last* non-overlapping `open(.*?)close` match (with
  `re.DOTALL`) and strips it. Module `CodeBlocks` is a single scanner with an
  `anchored` flag. Its contract is a declarative description of what
  `re.findall` returns; `FindallUnique` shows that description has only one
  solution.
- **Pre-strip of structured output** (`extract_internal_structure_text`).
  The text is cut to begin at the first `{`, whitespace, `"thought"`,
  whitespace, `:`.
- **Step helpers** written inline in `_step_stream` and
  `_generate_model_output`:
  - the stop-sequence list;
  - the closing tag appended to the model output;
  - the `extract_code_from_text(code, tags) or code` fallback;
  - the `additional_args` patch of `WrappedToolCallingAgent.execute_tool_call`.
- **Memory across an agent tree.** This covers `_sort_memory_steps` and the
  `total_input_tokens` and `all_memory_steps` properties that the scripts
  install on every agent.
- **The step itself** (generate, parse, execute, observe). It is modelled
  once, as a pure function from the model's output and the collaborators'
  results to the yielded events, the filled-in memory step and the raised
  error. The memory step holds the model output, the code, the tool calls,
  the observations and the action output. The variant parameter (`Wrapped` or `Poe`) captures the two
  differences between the agent classes:
  - the wrapped agent pre-strips structured output before decoding it;
  - the Poe agent yields the final `ActionOutput` twice, as its code does.

Modules, in dependency order:

| module | contents |
|---|---|
| `Wrappers` | `Option`, `Result` |
| `Text` | Python `str.strip()`, `in`, `endswith`, `startswith`, `str(n)` for naturals |
| `CodeBlocks` | the `re.findall` scan, both anchorings, and the last-block extractor |
| `StructuredText` | `extract_internal_structure_text` |
| `ToolArguments` | Python values, truthiness, the tool-argument patch |
| `MemorySteps` | the sort and the agent-tree aggregates |
| `AgentStep` | stop sequences, closing tag, structured fallback, the step |
| `WrappedAgents`, `PoeCodeAgent`, `SmolagentsWorkaround` | each script's own entry points |

## Model

| member | source | states |
|---|---|---|
| CodeBlocks.TryMatch | wrapped_agents.py:182 | A match starts at `p` exactly when the anchor holds, the opening tag starts at `p` and some closing tag follows it. The lazy group then ends at the first such closing tag. |
| CodeBlocks.Spans | wrapped_agents.py:181-186 | The scan's spans are the matches `re.findall` reports. Each is the leftmost match at or after the end of the previous one, with nothing matching in the gaps, and there is no match after the last one. |
| CodeBlocks.FindallUnique | wrapped_agents.py:186 | Any two match lists that satisfy the `re.findall` description are equal, so the description determines the result. |
| CodeBlocks.LazyContentHasNoClosing | wrapped_agents.py:182 | Because `.*?` is non-greedy, the captured group contains no occurrence of the closing tag. |
| CodeBlocks.ExtractLast | wrapped_agents.py:186-195 | The result is `None` exactly when no match starts anywhere. Otherwise it is the last match's content, stripped. That value has no edge whitespace, occurs in the text and contains no closing tag. |
| CodeBlocks.AnchoredFindsImpliesUnanchoredFinds | wrapped_agents.py:176-183 | The `(?m)^` anchor only removes matches: when the anchored extractor finds a block, the unanchored one finds one too. |
| WrappedAgents.ExtractCodeFromText | wrapped_agents.py:170-195 | The result is `None` exactly when no opening tag at offset 0 or right after a `'\n'` is followed later by a closing tag. Otherwise it is the last match's content, stripped, with no edge whitespace and no closing tag inside. |
| PoeCodeAgent.ExtractCodeFromText | poe_code_agent.py:30-44 | The same contract as the wrapped copy: `None` when there is no line-anchored match, else the last match stripped. |
| PoeCodeAgent.ExtractorsAgree | poe_code_agent.py:30-44 | The two line-anchored copies return the same value on every input. |
| SmolagentsWorkaround.ExtractLastCodeFromText | smolagents_workaround.py:13-21 | The result is `None` exactly when no opening tag anywhere is followed later by a closing tag. Otherwise it is the last match's content, stripped; it occurs in the text, has no edge whitespace and contains no closing tag. |
| SmolagentsWorkaround.OnlyUnanchoredFindsMidLineBlock | smolagents_workaround.py:17-20 | A block that opens mid-line on text without line breaks, as after a `> ` quote prefix, is found by this extractor but not by the line-anchored copies. |
| StructuredText.ThoughtStartsAtIff | wrapped_agents.py:204 | The forward scan for brace, whitespace, `"thought"`, whitespace and colon accepts position `i` exactly when the regular expression can match there. |
| StructuredText.FindThought | wrapped_agents.py:204 | Returns the leftmost position at or after `from` where the pattern matches, or `None` when there is none. |
| StructuredText.ExtractInternalStructureText | wrapped_agents.py:198-209 | The result is always a suffix of the input, and a changed result starts with `{`. |
| StructuredText.ExtractInternalStructureTextSpec | wrapped_agents.py:198-209 | The result is the input itself when the pattern never matches, and otherwise the suffix from the first match. |
| StructuredText.ExtractInternalStructureTextIdempotent | wrapped_agents.py:198-209 | Applying the pre-strip to its own result changes nothing. |
| ToolArguments.PatchArguments | wrapped_agents.py:148-161 | The arguments change only when the tool name ends with `agent`, they are a dict and `additional_args` is missing or falsy. Then `additional_args` becomes `{}` and every other key keeps its value; the caller's value is never altered. |
| ToolArguments.PatchArgumentsIdempotent | wrapped_agents.py:152-158 | Patching the patched arguments again gives the same arguments. |
| ToolArguments.PatchedAgentCallHasAdditionalArgs | wrapped_agents.py:153-158 | After the patch, a dict call to an agent tool always has `additional_args`, which is either the caller's truthy value or `{}`. |
| MemorySteps.SortMemorySteps | wrapped_agents.py:78-89 | The result is a permutation of the input, ordered by the key (has start time, start time or 0). Steps with equal start times, including the untimed ones, keep their input order, as Python's stable sort does. |
| MemorySteps.UntimedStepsFirst | wrapped_agents.py:83-89 | In the sorted list, no timed step comes before an untimed one. |
| MemorySteps.TotalInputTokensIsTreeSum | wrapped_agents.py:117-122 | `total_input_tokens` equals the sum of the agents' own monitor counts over the whole managed-agent tree. |
| MemorySteps.AllMemorySteps | wrapped_agents.py:125-140 | Every collected step carries a non-empty agent name. The list starts with the agent's own steps, in order, each tagged with the agent's name, or with `unnamed_agent` when the name is empty or missing. |
| MemorySteps.AllMemoryStepsIsPreorder | wrapped_agents.py:125-140 | `all_memory_steps` is the preorder concatenation of each agent's own steps, tagged with that agent's name. |
| MemorySteps.AllMemoryStepsLength | wrapped_agents.py:125-140 | The number of collected steps is the total step count of the tree. |
| AgentStep.StopSequences | wrapped_agents.py:226-229 | The list starts with `Observation:` and `Calling tools:`. It has the closing tag as a third entry exactly when the closing tag does not occur inside the opening tag. |
| AgentStep.AppendClosingTag | poe_code_agent.py:97-104 | The result is the output itself or the output followed by one closing tag. It is untouched in structured mode or when empty. Otherwise the tag is appended exactly when the stripped output does not already end with it. |
| AgentStep.AppendedOutputEndsWithClosing | wrapped_agents.py:271-278 | For a closing tag that is empty or has no edge whitespace, a non-empty output outside structured mode ends with the closing tag once stripped, after the append. |
| AgentStep.AppendClosingTagIdempotent | poe_code_agent.py:97-104 | For a closing tag without edge whitespace, appending twice gives the same text as appending once. |
| AgentStep.StructuredCodeFallback | poe_code_agent.py:139-143 | The code is the whole `"code"` field or a segment of it with no edge whitespace. |
| AgentStep.StructuredCodeFallbackSpec | poe_code_agent.py:139-143 | The code is the last line-anchored block of the `"code"` field, stripped, when there is one and it is non-empty. Otherwise it is the whole field, because Python's `or` treats the empty string as false. |
| AgentStep.ParseCodeAction | wrapped_agents.py:288-311 | Every parse error message starts with `Error in code parsing:` and a line break, and ends with a line break and `Make sure to provide correct code blobs.`. Outside structured mode, parsing succeeds exactly when `parse_code_blobs` does. The code is then `fix_final_answer_code` of its result; otherwise the message frames the collaborator's message. |
| AgentStep.ParseStructuredOutput | wrapped_agents.py:288-311 | In structured mode the decoder gets the pre-stripped output for the wrapped agent and the raw output for Poe. Parsing succeeds exactly when decoding does. The code is then `fix_final_answer_code` of the structured fallback applied to the `"code"` field; otherwise the message frames the decoder's message. |
| AgentStep.ParseVariantsAgreeWithoutThought | wrapped_agents.py:289-302 | The two agents parse any output identically when it contains no `{"thought":` object, or when structured output is off. |
| AgentStep.CallId | poe_code_agent.py:157 | The tool call id is `call_` followed by the decimal digits of the memory size. |
| AgentStep.CallIdsDistinct | poe_code_agent.py:154-158 | Steps taken at different memory sizes get different tool call ids. |
| AgentStep.StepStream | poe_code_agent.py:113-160 | The streamed deltas come first. A step that recorded code also recorded the model output. |
| AgentStep.StepStreamToolCalls | poe_code_agent.py:154-160 | The only tool call yielded is `python_interpreter` with the parsed code and id `call_<memory size>`. It is yielded exactly when the code was parsed. |
| AgentStep.StepStreamRecordsYieldedToolCalls | poe_code_agent.py:154-160 | The memory step's `tool_calls` are exactly the tool calls the step yielded. |
| AgentStep.AfterGeneration | wrapped_agents.py:271-371 | No delta comes after the model call. A model failure alone raises the generation error; it then yields nothing and records no model output. Parse failures raise before any event and record no code. An execution failure raises right after the tool call. A step that raises nothing has parsed code. |
| AgentStep.AfterGenerationParses | wrapped_agents.py:271-311 | A failed model call raises `Error in generating model output:` and a line break, followed by the exception's message. Otherwise the recorded model output is the content with the closing tag appended. A failed parse of that output raises a parsing error carrying the parse's framed message. A successful parse is the code the step records. |
| AgentStep.StepStreamParses | poe_code_agent.py:97-152 | The same four facts for the whole step: the framed generation error, the recorded appended output, the parsing error and the recorded parsed code. |
| AgentStep.AfterGenerationToolCalls | wrapped_agents.py:313-319 | After the model call, the only tool call yielded is the interpreter call with the parsed code, and the memory step records exactly the tool calls yielded. |
| AgentStep.AfterGenerationSucceeds | poe_code_agent.py:154-216 | A step that raises nothing yields the tool call and then the action output, twice for Poe and once for the wrapped agent. It records that output. |
| AgentStep.ExecuteCode | poe_code_agent.py:154-216 | The code and model output are kept, and the tool call is recorded. The step raises an execution error exactly when the executor fails, having yielded only the tool call. Otherwise it yields the tool call and then the action output, and records that output. |
| AgentStep.ExecuteCodeToolCalls | poe_code_agent.py:154-160 | The execution half yields exactly one tool call: the interpreter with the code, under `call_<memory size>`. |
| AgentStep.ExecuteCodeObservations | wrapped_agents.py:325-359 | After a run, the observations are exactly `Execution logs:`, a line break, the run's logs, `Last output from code snippet:`, a line break and the rendered output. A failed run raises an execution error carrying the executor's message and records no action output. Its observations are `Execution logs:`, a line break and the buffered prints when those are non-empty, and absent otherwise. |
| AgentStep.StepStreamDeltasOnlyWhenStreaming | wrapped_agents.py:234-264 | Without streaming, no delta is yielded. |
| AgentStep.StepStreamGenerationError | wrapped_agents.py:230-285 | The step raises a generation error exactly when the model call fails. It has then yielded only the deltas streamed so far and recorded no model output. |
| AgentStep.StepStreamParsingErrorBeforeToolCall | poe_code_agent.py:137-159 | Generation and parsing errors are raised before any tool call is yielded. |
| AgentStep.StepStreamExecutionErrorAfterToolCall | poe_code_agent.py:154-196 | Once there is code, the step fails exactly when executing it fails. It fails right after the tool call, which is the last event yielded. |
| AgentStep.StepStreamSuccessEndsWithActionOutput | poe_code_agent.py:198-216 | A successful step ends with the tool call followed by `ActionOutput(output, is_final_answer)`: twice for Poe, once for the wrapped agent. |
| WrappedAgents.StepStream | wrapped_agents.py:212-371 | A successful wrapped step ends with the tool call and one action output. An execution error leaves the tool call as the last event. |
| PoeCodeAgent.StepStream | poe_code_agent.py:113-216 | A successful Poe step ends with the tool call and two equal action outputs. An execution error leaves the tool call as the last event. |
| Text.Strip | wrapped_agents.py:193 | `strip()` returns a segment of its input with no edge whitespace, such that everything cut off on either side is whitespace. |
| Text.StripUnique | wrapped_agents.py:193 | A string meeting that description is the stripped string, so the description determines `strip()`. |
| Text.Contains | wrapped_agents.py:227 | `closing in opening` holds exactly when the closing tag occurs at some index of the opening tag. |
| Text.DecimalRoundTrip | poe_code_agent.py:157 | Reading back the digits of `str(n)` gives `n`. |
| Text.DecimalInjective | poe_code_agent.py:157 | Different naturals have different decimal strings. |

## Left out

- Model calls, streaming and rendering (`generate`, `generate_stream`, `rich.Live`, `Markdown`, every logger call) are I/O. The model's deltas and its content (or its exception) are inputs, in `Generation`.
- `agglomerate_stream_deltas` is a framework function. The content it would build is taken from `Generation.content` in both modes.
- The JSON decoder, `parse_code_blobs`, `fix_final_answer_code`, `truncate_content(str(...))` and the sandboxed executor are framework code. They are parameters (`Collaborators`), and the executor's result or exception is an `Execution`.
- `write_memory_to_messages` builds the model's input from framework message objects. The resulting `model_input_messages` and the reply `model_output_message` are stored on the memory step. `StepRecord` carries neither, and the rewrite of the reply's content after the closing tag is appended (wrapped_agents.py:278) is not modelled.
- `token_usage` is copied from the model's reply into the memory step; `StepRecord` does not carry it.
- The unauthorised-import warning at wrapped_agents.py:350-354 only logs.
- The monkey-patches `models.supports_stop_parameter`, `utils.extract_code_from_text` and the property injection onto `MultiStepAgent` are process-global mutation. The installed `extract_last_code_from_text` and the two injected properties, `total_input_tokens` and `all_memory_steps`, are modelled. The installed `supports_stop_parameter`, a constant `False` (wrapped_agents.py:167), is not.
- `_extract_log` and `get_all_messages` format the transcript with `ast.literal_eval` and framework message objects.
- tool.py, tool_query.py, args.py, llm.py, stats.py, simple_query.py, multi_agent_query.py, structured_output_query.py and smolagents_poe_llm.py are psutil reads, environment and CLI loading, and driver scripts. They are not part of this model.
- Float start times are abstracted to an ordered integer key.
- Unicode whitespace is abstracted to the ASCII set space, tab, line feed, carriage return, vertical tab and form feed, for both `strip()` and `\s`.
- The step writes its results into a mutable `ActionStep` by attribute assignment, and `all_memory_steps` tags the steps in place with `setattr`. The model returns a fresh `StepRecord` and fresh tagged steps instead.
- A `None` message content from the model is not modelled: the content is always a string or an exception.
- CodeBlocks.ExtractLast: requires a non-empty opening tag. The scan advances past each opening tag, and every tag the scripts use is non-empty.
- SmolagentsWorkaround.ExtractLastCodeFromText: requires both tags to be free of regular-expression metacharacters. The source interpolates the tags unescaped, so other tags give a different pattern, which is not modelled.
- AgentStep.AppendedOutputEndsWithClosing: requires a closing tag that is empty or has no edge whitespace. With a tag like `"x "`, the stripped output ends with `x` rather than with the tag.
- AgentStep.AppendClosingTagIdempotent: requires a closing tag with no edge whitespace. With a tag like `"x "`, the appended tag's trailing space is stripped off and the tag is appended again.
