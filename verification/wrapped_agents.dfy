/**
 * The entry points of the wrapped agents script: its copy of the
 * line-anchored extractor and the step of `WrappedCodeAgent`. The other
 * pieces of that script are modelled in `StructuredText`
 * (`extract_internal_structure_text`), `ToolArguments`
 * (`WrappedToolCallingAgent.execute_tool_call`), `MemorySteps`
 * (`_sort_memory_steps`, `total_input_tokens`, `all_memory_steps`) and
 * `AgentStep` (the inline helpers of `_step_stream`).
 */
module WrappedAgents {
  import opened Wrappers
  import opened Text
  import opened CodeBlocks
  import AgentStep

  /** `extract_code_from_text`: the last block whose opening tag starts a
      line, stripped, or `None` when no opening tag at a line start is
      followed by a closing tag. */
  function ExtractCodeFromText(text: string, tags: CodeBlockTags): (r: Option<string>)
    requires |tags.opening| > 0
    ensures r.None? <==>
              forall p: nat :: !(AtLineStart(text, p) && OccursAt(text, tags.opening, p)
                                 && exists j :: p + |tags.opening| <= j && OccursAt(text, tags.closing, j))
    ensures forall ms :: IsFindall(text, tags, true, 0, ms) && |ms| > 0 ==>
              r == Some(Strip(Content(text, tags, ms[|ms| - 1])))
    ensures r.Some? ==> NoEdgeWs(r.value)
    ensures r.Some? && |tags.closing| > 0 ==> !Occurs(r.value, tags.closing)
  {
    assert forall p: nat :: MatchStartsAt(text, tags, true, p) <==>
             (AtLineStart(text, p) && OccursAt(text, tags.opening, p)
              && exists j :: p + |tags.opening| <= j && OccursAt(text, tags.closing, j));
    ExtractLast(text, tags, true)
  }

  /** `WrappedCodeAgent._step_stream`: a successful step yields its action
      output once, after the tool call, and structured output is cut to its
      `{"thought": ...}` object before it is decoded. */
  function StepStream(cfg: AgentStep.StepConfig, memorySteps: nat, gen: AgentStep.Generation,
                      env: AgentStep.Collaborators): (r: AgentStep.StepOutcome)
    requires |cfg.tags.opening| > 0
    ensures r.raised.None? ==>
              && |r.events| >= 2
              && r.events[|r.events| - 2].ToolCall?
              && r.events[|r.events| - 1].ActionOutput?
    ensures r.raised.Some? && r.raised.value.ExecutionError? ==>
              |r.events| > 0 && r.events[|r.events| - 1].ToolCall?
  {
    var r := AgentStep.StepStream(AgentStep.Wrapped, cfg, memorySteps, gen, env);
    AgentStep.StepStreamSuccessEndsWithActionOutput(AgentStep.Wrapped, cfg, memorySteps, gen, env);
    AgentStep.StepStreamExecutionErrorAfterToolCall(AgentStep.Wrapped, cfg, memorySteps, gen, env);
    r
  }
}
