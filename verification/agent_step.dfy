/**
 * One step of a code agent (generate, parse, execute, observe) and the
 * helpers the step performs inline: the stop sequences sent with the model
 * call, the closing tag appended to the model output, and the fallback for
 * the `"code"` field of structured output.
 *
 * The two agent classes overriding the step differ in two places only,
 * captured by `Variant`: the wrapped agent cuts structured output down to
 * its `{"thought": ...}` object before decoding it, and yields the final
 * `ActionOutput` once; the Poe agent decodes the output as is and yields the
 * `ActionOutput` twice.
 *
 * The model call, the JSON decoder, the framework's `parse_code_blobs`,
 * `fix_final_answer_code` and `truncate_content`, and the sandboxed
 * executor are not part of this model: their results are inputs.
 */
module AgentStep {
  import opened Wrappers
  import opened Text
  import opened CodeBlocks
  import opened StructuredText
  import opened ToolArguments

  /** The stop sequences sent with the model call. The closing tag is added
      only when it does not occur inside the opening tag, where it would cut
      the opening tag itself short. */
  function StopSequences(tags: CodeBlockTags): (r: seq<string>)
    ensures 2 <= |r| <= 3
    ensures r[0] == "Observation:" && r[1] == "Calling tools:"
    ensures |r| == 3 <==> !Occurs(tags.opening, tags.closing)
    ensures |r| == 3 ==> r[2] == tags.closing
  {
    ["Observation:", "Calling tools:"] + (if Contains(tags.opening, tags.closing) then [] else [tags.closing])
  }

  /** The closing tag is glued to the model output (outside structured
      mode) when the output is non-empty and, stripped, does not already end
      with it. */
  function AppendClosingTag(outputText: string, closing: string, structured: bool): (r: string)
    ensures r == outputText || r == outputText + closing
    ensures structured || outputText == [] ==> r == outputText
    ensures |closing| > 0 ==>
              (r != outputText <==> !structured && outputText != [] && !EndsWith(Strip(outputText), closing))
  {
    if !structured && outputText != [] && !EndsWith(Strip(outputText), closing) then
      outputText + closing
    else
      outputText
  }

  /** Outside structured mode, a non-empty output ends, once stripped, with
      the closing tag after the append. */
  lemma AppendedOutputEndsWithClosing(outputText: string, closing: string)
    requires NoEdgeWs(closing)
    requires outputText != []
    ensures EndsWith(Strip(AppendClosingTag(outputText, closing, false)), closing)
  {
    if !EndsWith(Strip(outputText), closing) && closing != [] {
      StripKeepsTrimmedSuffix(outputText, closing);
    }
  }

  /** Stripping `o + c` leaves `c` at the end when `c` has no edge whitespace. */
  lemma StripKeepsTrimmedSuffix(o: string, c: string)
    requires c != [] && NoEdgeWs(c)
    ensures EndsWith(Strip(o + c), c)
  {
    var s := o + c;
    assert s[|o|] == c[0] && s[|s| - 1] == c[|c| - 1];
    StripOfTrimmedEnd(s, |o|);
    SuffixOfAppend(o, c, |s| - |Strip(s)|);
  }

  /** When the last character of `s` is not whitespace, stripping only cuts
      a prefix, and that prefix ends before any non-whitespace `s[m]`. */
  lemma StripOfTrimmedEnd(s: string, m: nat)
    requires m < |s| && !IsWs(s[m]) && !IsWs(s[|s| - 1])
    ensures |s| - m <= |Strip(s)| && Strip(s) == s[|s| - |Strip(s)|..]
  {
    var r := Strip(s);
    var a: nat :| StrippedAt(s, r, a);
    StrippedBoundary(s, r, a, m);
  }

  /** When `s[m]` and the last character of `s` are not whitespace, the
      stripped segment runs from at most `m` to the end of `s`. */
  lemma StrippedBoundary(s: string, r: string, a: nat, m: nat)
    requires StrippedAt(s, r, a)
    requires m < |s| && !IsWs(s[m]) && !IsWs(s[|s| - 1])
    ensures a <= m && a + |r| == |s|
  {
    StrippedChars(s, r, a);
  }

  lemma SuffixOfAppend(o: string, c: string, a: nat)
    requires a <= |o|
    ensures EndsWith((o + c)[a..], c)
  {
    var t := (o + c)[a..];
    assert t[|t| - |c|..] == c;
  }

  /** Appending is idempotent: once the tag is there, it is not added again. */
  lemma AppendClosingTagIdempotent(outputText: string, closing: string, structured: bool)
    requires NoEdgeWs(closing)
    ensures AppendClosingTag(AppendClosingTag(outputText, closing, structured), closing, structured)
            == AppendClosingTag(outputText, closing, structured)
  {
    if !structured && outputText != [] {
      AppendedOutputEndsWithClosing(outputText, closing);
    }
  }

  /** `extract_code_from_text(code, tags) or code`: the last line-anchored
      block of the `"code"` field, unless there is none or it strips to the
      empty string, which Python's `or` treats as false. */
  function StructuredCodeFallback(field: string, tags: CodeBlockTags): (r: string)
    requires |tags.opening| > 0
    ensures r == field || (NoEdgeWs(r) && Occurs(field, r))
  {
    match ExtractLast(field, tags, true)
    case Some(block) => if block != [] then block else field
    case None => field
  }

  /** Which code the fallback picks: the whole field when no line-anchored
      block exists, otherwise the last block, stripped, unless that is
      empty. */
  lemma StructuredCodeFallbackSpec(field: string, tags: CodeBlockTags)
    requires |tags.opening| > 0
    ensures NoMatchFrom(field, tags, true, 0) ==> StructuredCodeFallback(field, tags) == field
    ensures forall ms :: IsFindall(field, tags, true, 0, ms) && |ms| > 0 ==>
              var block := Strip(Content(field, tags, ms[|ms| - 1]));
              StructuredCodeFallback(field, tags) == (if block != [] then block else field)
  {
  }

  /** Which agent class performs the step. */
  datatype Variant = Wrapped | Poe

  /** `code_block_tags`, `_use_structured_outputs_internally`, `stream_outputs`. */
  datatype StepConfig = StepConfig(tags: CodeBlockTags, structuredOutputs: bool, streamOutputs: bool)

  /** What the model call produced: the deltas streamed before it finished
      (consulted in streaming mode only), then the message content or the
      message of the exception it raised. */
  datatype Generation = Generation(deltas: seq<string>, content: Result<string>)

  /** What the sandboxed executor did with the code: returned an output, its
      print log and the final-answer flag, or raised, leaving behind the
      `_print_outputs` it had buffered, if its state has any. */
  datatype Execution =
    | Executed(output: PyValue, logs: string, isFinalAnswer: bool)
    | ExecutionFailed(message: string, printOutputs: Option<string>)

  /** The framework functions the step calls. */
  datatype Collaborators = Collaborators(
    decodeCodeField: string -> Result<string>,            // json.loads(text)["code"]
    parseCodeBlobs: (string, CodeBlockTags) -> Result<string>,
    fixFinalAnswerCode: string -> string,
    execute: string -> Execution,                         // self.python_executor(code)
    renderOutput: PyValue -> string                       // truncate_content(str(output))
  )

  /** What the step generator yields. */
  datatype Event =
    | StreamDelta(delta: string)
    | ToolCall(name: string, arguments: string, id: string)
    | ActionOutput(output: PyValue, isFinalAnswer: bool)

  /** The exception that ends a failed step. */
  datatype StepError =
    | GenerationError(message: string)
    | ParsingError(message: string)
    | ExecutionError(message: string)

  /** The fields of the memory step the step fills in. */
  datatype StepRecord = StepRecord(
    modelOutput: Option<string>,
    codeAction: Option<string>,
    toolCalls: seq<Event>,
    observations: Option<string>,
    actionOutput: Option<PyValue>)

  /** The events yielded, the memory step as left behind, and the exception
      raised at the end, if any. */
  datatype StepOutcome = StepOutcome(events: seq<Event>, record: StepRecord, raised: Option<StepError>)

  const InterpreterTool: string := "python_interpreter"

  /** The tool call id of a step taken when the memory holds `n` steps. */
  function CallId(n: nat): (id: string)
    ensures |id| > 5 && id[..5] == "call_"
    ensures id[5..] == Decimal(n)
  {
    "call_" + Decimal(n)
  }

  /** Tool call ids of steps taken at different memory sizes differ. */
  lemma CallIdsDistinct(m: nat, n: nat)
    requires m != n
    ensures CallId(m) != CallId(n)
  {
    DecimalInjective(m, n);
    assert CallId(m)[5..] == Decimal(m);
    assert CallId(n)[5..] == Decimal(n);
  }

  /** The tool calls among the yielded events. */
  function ToolCalls(events: seq<Event>): (r: seq<Event>)
    ensures |r| <= |events|
  {
    if events == [] then []
    else (if events[0].ToolCall? then [events[0]] else []) + ToolCalls(events[1..])
  }

  lemma {:induction false} ToolCallsAppend(a: seq<Event>, b: seq<Event>)
    ensures ToolCalls(a + b) == ToolCalls(a) + ToolCalls(b)
  {
    if a == [] {
      assert a + b == b;
    } else {
      var head := if a[0].ToolCall? then [a[0]] else [];
      assert (a + b)[0] == a[0];
      assert (a + b)[1..] == a[1..] + b;
      ToolCallsAppend(a[1..], b);
      calc {
        ToolCalls(a + b);
        head + ToolCalls(a[1..] + b);
        head + (ToolCalls(a[1..]) + ToolCalls(b));
        (head + ToolCalls(a[1..])) + ToolCalls(b);
      }
    }
  }

  lemma ToolCallsSingle(e: Event)
    ensures ToolCalls([e]) == if e.ToolCall? then [e] else []
  {
    assert [e][1..] == [];
  }

  /** The deltas yielded while streaming. */
  function DeltaEvents(cfg: StepConfig, gen: Generation): (r: seq<Event>)
    ensures !cfg.streamOutputs ==> r == []
    ensures cfg.streamOutputs ==> |r| == |gen.deltas| && forall i :: 0 <= i < |r| ==> r[i] == StreamDelta(gen.deltas[i])
  {
    if cfg.streamOutputs then DeltaSeq(gen.deltas) else []
  }

  function DeltaSeq(deltas: seq<string>): (r: seq<Event>)
    ensures |r| == |deltas|
    ensures forall i :: 0 <= i < |r| ==> r[i] == StreamDelta(deltas[i])
  {
    if deltas == [] then [] else [StreamDelta(deltas[0])] + DeltaSeq(deltas[1..])
  }

  /** Streamed deltas are never tool calls. */
  lemma {:induction false} DeltaSeqHasNoToolCalls(deltas: seq<string>)
    ensures ToolCalls(DeltaSeq(deltas)) == []
  {
    if deltas != [] {
      DeltaSeqHasNoToolCalls(deltas[1..]);
      ToolCallsSingle(StreamDelta(deltas[0]));
      ToolCallsAppend([StreamDelta(deltas[0])], DeltaSeq(deltas[1..]));
    }
  }

  lemma DeltaEventsHaveNoToolCalls(cfg: StepConfig, gen: Generation)
    ensures ToolCalls(DeltaEvents(cfg, gen)) == []
  {
    DeltaSeqHasNoToolCalls(gen.deltas);
  }

  const NoRecord: StepRecord := StepRecord(None, None, [], None, None)

  /** Parse the model output into the code to run. */
  function ParseCodeAction(variant: Variant, cfg: StepConfig, outputText: string, env: Collaborators)
    : (r: Result<string>)
    requires |cfg.tags.opening| > 0
    ensures r.Failure? ==>
              && StartsWith(r.message, "Error in code parsing:\n")
              && EndsWith(r.message, "\nMake sure to provide correct code blobs.")
    ensures !cfg.structuredOutputs ==>
              (r.Success? <==> env.parseCodeBlobs(outputText, cfg.tags).Success?)
    ensures !cfg.structuredOutputs ==>
              var parsed := env.parseCodeBlobs(outputText, cfg.tags);
              && (r.Success? ==> r.value == env.fixFinalAnswerCode(parsed.value))
              && (r.Failure? ==>
                    r.message == "Error in code parsing:\n" + parsed.message + "\nMake sure to provide correct code blobs.")
  {
    var parsed :=
      if cfg.structuredOutputs then
        var json := if variant == Wrapped then ExtractInternalStructureText(outputText) else outputText;
        match env.decodeCodeField(json)
        case Success(field) => Success(StructuredCodeFallback(field, cfg.tags))
        case Failure(e) => Failure(e)
      else
        env.parseCodeBlobs(outputText, cfg.tags);
    match parsed
    case Success(code) => Success(env.fixFinalAnswerCode(code))
    case Failure(e) =>
      Failure("Error in code parsing:\n" + e + "\nMake sure to provide correct code blobs.")
  }

  /** In structured mode the code is the `"code"` field of the decoded
      output (after the wrapped agent's pre-strip) passed through the
      code-block fallback; a decoding failure becomes the parse error. */
  lemma ParseStructuredOutput(variant: Variant, cfg: StepConfig, outputText: string, env: Collaborators)
    requires |cfg.tags.opening| > 0 && cfg.structuredOutputs
    ensures var r := ParseCodeAction(variant, cfg, outputText, env);
            var json := if variant == Wrapped then ExtractInternalStructureText(outputText) else outputText;
            var decoded := env.decodeCodeField(json);
            && (r.Success? <==> decoded.Success?)
            && (r.Success? ==> r.value == env.fixFinalAnswerCode(StructuredCodeFallback(decoded.value, cfg.tags)))
            && (r.Failure? ==>
                  r.message == "Error in code parsing:\n" + decoded.message + "\nMake sure to provide correct code blobs.")
  {
  }

  /** The two agents parse alike except in structured mode, where the
      wrapped agent first cuts the output down to its `{"thought": ...}`
      object; on output with no such object they agree everywhere. */
  lemma ParseVariantsAgreeWithoutThought(cfg: StepConfig, outputText: string, env: Collaborators)
    requires |cfg.tags.opening| > 0
    requires !cfg.structuredOutputs || forall i: nat :: !ThoughtObjectAt(outputText, i)
    ensures ParseCodeAction(Wrapped, cfg, outputText, env) == ParseCodeAction(Poe, cfg, outputText, env)
  {
    ExtractInternalStructureTextSpec(outputText);
  }

  /** `_step_stream`: the events one step yields and how it ends. Deltas
      come first, and only when streaming; the one tool call, if any, runs
      the parsed code in the interpreter under this step's id. */
  function StepStream(variant: Variant, cfg: StepConfig, memorySteps: nat, gen: Generation, env: Collaborators)
    : (r: StepOutcome)
    requires |cfg.tags.opening| > 0
    ensures DeltaEvents(cfg, gen) <= r.events
    ensures r.record.codeAction.Some? ==> r.record.modelOutput.Some?
  {
    var deltas := DeltaEvents(cfg, gen);
    var rest := AfterGeneration(variant, cfg, memorySteps, gen.content, env);
    rest.(events := deltas + rest.events)
  }

  /** A step yields at most one tool call: the interpreter running the
      parsed code under this step's id, and only once there is code. */
  lemma StepStreamToolCalls(variant: Variant, cfg: StepConfig, memorySteps: nat, gen: Generation, env: Collaborators)
    requires |cfg.tags.opening| > 0
    ensures var r := StepStream(variant, cfg, memorySteps, gen, env);
            ToolCalls(r.events) ==
              if r.record.codeAction.Some? then [ToolCall(InterpreterTool, r.record.codeAction.value, CallId(memorySteps))]
              else []
  {
    var deltas := DeltaEvents(cfg, gen);
    var rest := AfterGeneration(variant, cfg, memorySteps, gen.content, env);
    DeltaEventsHaveNoToolCalls(cfg, gen);
    AfterGenerationToolCalls(variant, cfg, memorySteps, gen.content, env);
    ToolCallsAppend(deltas, rest.events);
  }

  /** What the step yields and records once the model call has returned or
      raised: everything but the streamed deltas. */
  function AfterGeneration(variant: Variant, cfg: StepConfig, memorySteps: nat, content: Result<string>,
                           env: Collaborators): (r: StepOutcome)
    requires |cfg.tags.opening| > 0
    ensures forall i :: 0 <= i < |r.events| ==> !r.events[i].StreamDelta?
    ensures r.record.codeAction.Some? ==> r.record.modelOutput.Some?
    ensures content.Failure? <==> r.raised.Some? && r.raised.value.GenerationError?
    ensures content.Failure? ==> r.events == [] && r.record.modelOutput.None?
    ensures r.raised.Some? && !r.raised.value.ExecutionError? ==> r.record.codeAction.None? && r.events == []
    ensures r.record.codeAction.Some? ==>
              (env.execute(r.record.codeAction.value).ExecutionFailed? <==> r.raised.Some?)
    ensures r.raised.Some? && r.raised.value.ExecutionError? ==>
              r.record.codeAction.Some? && |r.events| == 1 && r.events[0].ToolCall?
    ensures r.raised.None? ==> r.record.codeAction.Some?
  {
    match content
    case Failure(e) =>
      StepOutcome([], NoRecord, Some(GenerationError("Error in generating model output:\n" + e)))
    case Success(text) =>
      var outputText := AppendClosingTag(text, cfg.tags.closing, cfg.structuredOutputs);
      var generated := NoRecord.(modelOutput := Some(outputText));
      match ParseCodeAction(variant, cfg, outputText, env)
      case Failure(message) =>
        StepOutcome([], generated, Some(ParsingError(message)))
      case Success(code) =>
        ExecuteCode(variant, generated.(codeAction := Some(code)), memorySteps, env)
  }

  /** After the model call, the tool calls yielded are the one the code
      runs under, and the memory step records exactly those. */
  lemma AfterGenerationToolCalls(variant: Variant, cfg: StepConfig, memorySteps: nat, content: Result<string>,
                                 env: Collaborators)
    requires |cfg.tags.opening| > 0
    ensures var r := AfterGeneration(variant, cfg, memorySteps, content, env);
            && ToolCalls(r.events) ==
                 (if r.record.codeAction.Some? then [ToolCall(InterpreterTool, r.record.codeAction.value, CallId(memorySteps))]
                  else [])
            && r.record.toolCalls == ToolCalls(r.events)
  {
    if content.Success? {
      var outputText := AppendClosingTag(content.value, cfg.tags.closing, cfg.structuredOutputs);
      var parsed := ParseCodeAction(variant, cfg, outputText, env);
      if parsed.Success? {
        var record := NoRecord.(modelOutput := Some(outputText), codeAction := Some(parsed.value));
        ExecuteCodeToolCalls(variant, record, memorySteps, env);
      }
    }
  }

  /** How the step uses its helpers: a failed model call raises the framed
      generation error; otherwise the recorded model output is the output
      with the closing tag appended, a failed parse of it raises the framed
      parse error, and a successful parse is the code the step records. */
  lemma AfterGenerationParses(variant: Variant, cfg: StepConfig, memorySteps: nat, content: Result<string>,
                              env: Collaborators)
    requires |cfg.tags.opening| > 0
    ensures var r := AfterGeneration(variant, cfg, memorySteps, content, env);
            && (content.Failure? ==>
                  r.raised == Some(GenerationError("Error in generating model output:\n" + content.message)))
            && (content.Success? ==>
                  var outputText := AppendClosingTag(content.value, cfg.tags.closing, cfg.structuredOutputs);
                  var parsed := ParseCodeAction(variant, cfg, outputText, env);
                  && r.record.modelOutput == Some(outputText)
                  && (parsed.Failure? ==> r.raised == Some(ParsingError(parsed.message)))
                  && (parsed.Success? ==> r.record.codeAction == Some(parsed.value)))
  {
  }

  /** Once the model call has returned, a step that raises nothing yields
      the tool call and then the action output, twice for Poe and once for
      the wrapped agent, and records that output. */
  lemma AfterGenerationSucceeds(variant: Variant, cfg: StepConfig, memorySteps: nat, content: Result<string>,
                                env: Collaborators)
    requires |cfg.tags.opening| > 0
    ensures var r := AfterGeneration(variant, cfg, memorySteps, content, env);
            r.raised.None? ==>
              && r.record.codeAction.Some?
              && var n := if variant == Poe then 2 else 1;
                 var out := env.execute(r.record.codeAction.value);
                 && |r.events| == n + 1
                 && r.events[0].ToolCall?
                 && r.events[n] == ActionOutput(out.output, out.isFinalAnswer)
                 && r.events[1] == ActionOutput(out.output, out.isFinalAnswer)
                 && r.record.actionOutput == Some(out.output)
  {
  }

  /** The execute-and-observe half of the step, once `record` holds the
      code: the events it yields and how it ends. */
  function ExecuteCode(variant: Variant, record: StepRecord, memorySteps: nat, env: Collaborators)
    : (r: StepOutcome)
    requires record.codeAction.Some?
    ensures r.record.codeAction == record.codeAction && r.record.modelOutput == record.modelOutput
    ensures r.record.toolCalls == [ToolCall(InterpreterTool, record.codeAction.value, CallId(memorySteps))]
    ensures forall i :: 0 <= i < |r.events| ==> !r.events[i].StreamDelta?
    ensures env.execute(record.codeAction.value).ExecutionFailed? <==> r.raised.Some?
    ensures r.raised.Some? ==> r.raised.value.ExecutionError? && |r.events| == 1 && r.events[0].ToolCall?
    ensures r.raised.None? ==>
              var n := if variant == Poe then 2 else 1;
              var out := env.execute(record.codeAction.value);
              && |r.events| == n + 1
              && r.events[0].ToolCall?
              && r.events[n] == ActionOutput(out.output, out.isFinalAnswer)
              && r.events[1] == ActionOutput(out.output, out.isFinalAnswer)
              && r.record.actionOutput == Some(out.output)
  {
    var code := record.codeAction.value;
    var call := ToolCall(InterpreterTool, code, CallId(memorySteps));
    match env.execute(code)
    case ExecutionFailed(message, printOutputs) =>
      var observations :=
        if printOutputs.Some? && |printOutputs.value| > 0 then Some("Execution logs:\n" + printOutputs.value)
        else None;
      StepOutcome([call], record.(toolCalls := [call], observations := observations), Some(ExecutionError(message)))
    case Executed(output, logs, isFinal) =>
      var observation :=
        "Execution logs:\n" + logs + "Last output from code snippet:\n" + env.renderOutput(output);
      var action := ActionOutput(output, isFinal);
      var tail := if variant == Poe then [action, action] else [action];
      StepOutcome(
        [call] + tail,
        record.(toolCalls := [call], observations := Some(observation), actionOutput := Some(output)),
        None)
  }

  /** Executing yields exactly one tool call. */
  lemma ExecuteCodeToolCalls(variant: Variant, record: StepRecord, memorySteps: nat, env: Collaborators)
    requires record.codeAction.Some?
    ensures ToolCalls(ExecuteCode(variant, record, memorySteps, env).events) ==
              [ToolCall(InterpreterTool, record.codeAction.value, CallId(memorySteps))]
  {
    var r := ExecuteCode(variant, record, memorySteps, env);
    var call := ToolCall(InterpreterTool, record.codeAction.value, CallId(memorySteps));
    ToolCallsSingle(call);
    if r.raised.None? {
      var out := env.execute(record.codeAction.value);
      var action := ActionOutput(out.output, out.isFinalAnswer);
      var tail := if variant == Poe then [action, action] else [action];
      assert r.events == [call] + tail;
      ToolCallsAppend([call], tail);
      ToolCallsSingle(action);
      if variant == Poe {
        ToolCallsAppend([action], [action]);
      }
    }
  }

  /** The observations a step records: the execution logs, then, when the
      code ran, the rendered output; a failed run keeps no action output and
      records its buffered prints only when there are some. */
  lemma ExecuteCodeObservations(variant: Variant, record: StepRecord, memorySteps: nat, env: Collaborators)
    requires record.codeAction.Some?
    ensures var r := ExecuteCode(variant, record, memorySteps, env);
            var out := env.execute(record.codeAction.value);
            && (out.Executed? ==>
                  r.record.observations ==
                    Some("Execution logs:\n" + out.logs + "Last output from code snippet:\n" + env.renderOutput(out.output)))
            && (out.ExecutionFailed? ==>
                  && r.raised == Some(ExecutionError(out.message))
                  && r.record.actionOutput == record.actionOutput
                  && (r.record.observations.Some? <==> out.printOutputs.Some? && out.printOutputs.value != [])
                  && r.record.observations ==
                       (if out.printOutputs.Some? && out.printOutputs.value != [] then
                          Some("Execution logs:\n" + out.printOutputs.value)
                        else None))
  {
    var r := ExecuteCode(variant, record, memorySteps, env);
    match env.execute(record.codeAction.value)
    case Executed(output, logs, _) =>
      assert r.record.observations.value ==
             "Execution logs:\n" + logs + "Last output from code snippet:\n" + env.renderOutput(output);
    case ExecutionFailed(_, printOutputs) =>
  }

  /** The whole step uses its helpers as `AfterGenerationParses` states:
      the appended output is recorded, its parse is the recorded code, and
      the two error messages are framed as the source frames them. */
  lemma StepStreamParses(variant: Variant, cfg: StepConfig, memorySteps: nat, gen: Generation, env: Collaborators)
    requires |cfg.tags.opening| > 0
    ensures var r := StepStream(variant, cfg, memorySteps, gen, env);
            && (gen.content.Failure? ==>
                  r.raised == Some(GenerationError("Error in generating model output:\n" + gen.content.message)))
            && (gen.content.Success? ==>
                  var outputText := AppendClosingTag(gen.content.value, cfg.tags.closing, cfg.structuredOutputs);
                  var parsed := ParseCodeAction(variant, cfg, outputText, env);
                  && r.record.modelOutput == Some(outputText)
                  && (parsed.Failure? ==> r.raised == Some(ParsingError(parsed.message)))
                  && (parsed.Success? ==> r.record.codeAction == Some(parsed.value)))
  {
    AfterGenerationParses(variant, cfg, memorySteps, gen.content, env);
  }

  /** Only streaming yields deltas. */
  lemma StepStreamDeltasOnlyWhenStreaming(variant: Variant, cfg: StepConfig, memorySteps: nat, gen: Generation,
                                           env: Collaborators)
    requires |cfg.tags.opening| > 0 && !cfg.streamOutputs
    ensures var r := StepStream(variant, cfg, memorySteps, gen, env);
            forall i :: 0 <= i < |r.events| ==> !r.events[i].StreamDelta?
  {
  }

  /** The memory step records exactly the tool calls the step yielded. */
  lemma StepStreamRecordsYieldedToolCalls(variant: Variant, cfg: StepConfig, memorySteps: nat, gen: Generation,
                                          env: Collaborators)
    requires |cfg.tags.opening| > 0
    ensures var r := StepStream(variant, cfg, memorySteps, gen, env);
            r.record.toolCalls == ToolCalls(r.events)
  {
    var deltas := DeltaEvents(cfg, gen);
    var rest := AfterGeneration(variant, cfg, memorySteps, gen.content, env);
    DeltaEventsHaveNoToolCalls(cfg, gen);
    AfterGenerationToolCalls(variant, cfg, memorySteps, gen.content, env);
    ToolCallsAppend(deltas, rest.events);
  }

  /** A failed model call raises a generation error, and only it does;
      the events are then exactly the deltas streamed before the failure. */
  lemma StepStreamGenerationError(variant: Variant, cfg: StepConfig, memorySteps: nat, gen: Generation,
                                  env: Collaborators)
    requires |cfg.tags.opening| > 0
    ensures var r := StepStream(variant, cfg, memorySteps, gen, env);
            && (gen.content.Failure? <==> r.raised.Some? && r.raised.value.GenerationError?)
            && (gen.content.Failure? ==> r.events == DeltaEvents(cfg, gen) && r.record.modelOutput.None?)
  {
  }

  /** Generation and parsing errors are raised before any tool call is
      yielded. */
  lemma StepStreamParsingErrorBeforeToolCall(variant: Variant, cfg: StepConfig, memorySteps: nat,
                                             gen: Generation, env: Collaborators)
    requires |cfg.tags.opening| > 0
    ensures var r := StepStream(variant, cfg, memorySteps, gen, env);
            r.raised.Some? && !r.raised.value.ExecutionError? ==> ToolCalls(r.events) == []
  {
    StepStreamToolCalls(variant, cfg, memorySteps, gen, env);
  }

  /** Once there is code, the step fails exactly when executing it fails,
      and it does so right after yielding the tool call. */
  lemma StepStreamExecutionErrorAfterToolCall(variant: Variant, cfg: StepConfig, memorySteps: nat,
                                              gen: Generation, env: Collaborators)
    requires |cfg.tags.opening| > 0
    ensures var r := StepStream(variant, cfg, memorySteps, gen, env);
            && (r.record.codeAction.Some? ==>
                  (env.execute(r.record.codeAction.value).ExecutionFailed? <==> r.raised.Some?))
            && (r.raised.Some? && r.raised.value.ExecutionError? ==>
                  r.record.codeAction.Some? && |r.events| > 0 && r.events[|r.events| - 1].ToolCall?)
  {
  }

  /** A successful step ends with the tool call followed by its action
      output: twice for Poe, once for Wrapped. */
  lemma StepStreamSuccessEndsWithActionOutput(variant: Variant, cfg: StepConfig, memorySteps: nat,
                                              gen: Generation, env: Collaborators)
    requires |cfg.tags.opening| > 0
    ensures var r := StepStream(variant, cfg, memorySteps, gen, env);
            r.raised.None? ==>
              && r.record.codeAction.Some?
              && var n := if variant == Poe then 2 else 1;
                 var out := env.execute(r.record.codeAction.value);
                 && |r.events| >= n + 1
                 && r.events[|r.events| - n - 1].ToolCall?
                 && r.events[|r.events| - 1] == ActionOutput(out.output, out.isFinalAnswer)
                 && r.events[|r.events| - n] == ActionOutput(out.output, out.isFinalAnswer)
                 && r.record.actionOutput == Some(out.output)
  {
    var deltas := DeltaEvents(cfg, gen);
    var rest := AfterGeneration(variant, cfg, memorySteps, gen.content, env);
    AfterGenerationSucceeds(variant, cfg, memorySteps, gen.content, env);
    if rest.raised.None? {
      var n := if variant == Poe then 2 else 1;
      var out := env.execute(rest.record.codeAction.value);
      TailOfAppend(deltas, rest.events, n, ActionOutput(out.output, out.isFinalAnswer));
    }
  }

  /** Appending events after a prefix keeps the tail positions of the suffix. */
  lemma TailOfAppend(prefix: seq<Event>, tail: seq<Event>, n: nat, last: Event)
    requires 1 <= n && |tail| == n + 1 && tail[0].ToolCall? && tail[n] == last && tail[1] == last
    ensures var e := prefix + tail;
            && |e| >= n + 1
            && e[|e| - n - 1].ToolCall?
            && e[|e| - 1] == last
            && e[|e| - n] == last
  {
  }
}
