/**
 * The entry points of `PoeCodeAgent`: its copy of the line-anchored
 * extractor and its step, which differs from the wrapped agent's in
 * decoding structured output without cutting it first and in yielding the
 * final action output twice.
 */
module PoeCodeAgent {
  import opened Wrappers
  import opened Text
  import opened CodeBlocks
  import AgentStep
  import WrappedAgents

  /** `extract_code_from_text`, the same contract as the wrapped copy. */
  function ExtractCodeFromText(text: string, tags: CodeBlockTags): (r: Option<string>)
    requires |tags.opening| > 0
    ensures r.None? <==> NoMatchFrom(text, tags, true, 0)
    ensures forall ms :: IsFindall(text, tags, true, 0, ms) && |ms| > 0 ==>
              r == Some(Strip(Content(text, tags, ms[|ms| - 1])))
    ensures r.Some? ==> NoEdgeWs(r.value)
    ensures r.Some? && |tags.closing| > 0 ==> !Occurs(r.value, tags.closing)
  {
    ExtractLast(text, tags, true)
  }

  /** The two copies of the extractor compute the same thing. */
  lemma ExtractorsAgree(text: string, tags: CodeBlockTags)
    requires |tags.opening| > 0
    ensures ExtractCodeFromText(text, tags) == WrappedAgents.ExtractCodeFromText(text, tags)
  {
  }

  /** `PoeCodeAgent._step_stream`: a successful step ends with the tool call
      and then the same action output twice in a row. */
  function StepStream(cfg: AgentStep.StepConfig, memorySteps: nat, gen: AgentStep.Generation,
                      env: AgentStep.Collaborators): (r: AgentStep.StepOutcome)
    requires |cfg.tags.opening| > 0
    ensures r.raised.None? ==>
              && |r.events| >= 3
              && r.events[|r.events| - 3].ToolCall?
              && r.events[|r.events| - 2].ActionOutput?
              && r.events[|r.events| - 1] == r.events[|r.events| - 2]
    ensures r.raised.Some? && r.raised.value.ExecutionError? ==>
              |r.events| > 0 && r.events[|r.events| - 1].ToolCall?
  {
    var r := AgentStep.StepStream(AgentStep.Poe, cfg, memorySteps, gen, env);
    AgentStep.StepStreamSuccessEndsWithActionOutput(AgentStep.Poe, cfg, memorySteps, gen, env);
    AgentStep.StepStreamExecutionErrorAfterToolCall(AgentStep.Poe, cfg, memorySteps, gen, env);
    r
  }
}
