/**
 * Memory steps across a tree of agents: the `total_input_tokens` and
 * `all_memory_steps` properties installed on every agent (a manager agent
 * with the agents it manages below it), and `_sort_memory_steps`, which
 * orders the collected steps for the transcript.
 */
module MemorySteps {
  import opened Wrappers

  /** A memory step as the transcript code sees it: an opaque payload, the
      `timing.start_time` it carries (`None` when the step has no timing or
      no start time; float seconds are abstracted to an ordered integer),
      and the `agent_name` attribute `all_memory_steps` sets on it. */
  datatype MemoryStep = MemoryStep(payload: string, startTime: Option<int>, agentName: Option<string>)

  /** `key(a) <= key(b)` for the sort key
      `(start_time is not None, start_time or 0)`: untimed steps share the
      least key, timed ones compare by start time. */
  predicate KeyLeq(a: MemoryStep, b: MemoryStep)
  {
    match (a.startTime, b.startTime)
    case (None, _) => true
    case (Some(_), None) => false
    case (Some(x), Some(y)) => x <= y
  }

  ghost predicate Sorted(s: seq<MemoryStep>)
  {
    forall i, j :: 0 <= i < j < |s| ==> KeyLeq(s[i], s[j])
  }

  /** The steps of `s` whose sort key is the one of start time `t`, in order. */
  function WithStart(s: seq<MemoryStep>, t: Option<int>): seq<MemoryStep>
  {
    if s == [] then []
    else (if s[0].startTime == t then [s[0]] else []) + WithStart(s[1..], t)
  }

  /** `y`'s key is at most that of every step of `s`. */
  ghost predicate LeqAll(y: MemoryStep, s: seq<MemoryStep>)
  {
    forall k :: 0 <= k < |s| ==> KeyLeq(y, s[k])
  }

  /** Places `x` before the first step whose key is not smaller, so that
      `x` stays ahead of the steps with an equal key. */
  function Insert(x: MemoryStep, s: seq<MemoryStep>): seq<MemoryStep>
  {
    if s == [] then [x]
    else if KeyLeq(x, s[0]) then [x] + s
    else [s[0]] + Insert(x, s[1..])
  }

  lemma {:induction false} InsertMultiset(x: MemoryStep, s: seq<MemoryStep>)
    ensures multiset(Insert(x, s)) == multiset(s) + multiset{x}
  {
    if s != [] && !KeyLeq(x, s[0]) {
      var t := Insert(x, s[1..]);
      InsertMultiset(x, s[1..]);
      assert Insert(x, s) == [s[0]] + t;
      assert multiset([s[0]] + t) == multiset{s[0]} + multiset(t);
      assert multiset(s) == multiset{s[0]} + multiset(s[1..]) by {
        assert s == [s[0]] + s[1..];
      }
    }
  }

  lemma {:induction false} InsertLeqAll(y: MemoryStep, x: MemoryStep, s: seq<MemoryStep>)
    requires LeqAll(y, s) && KeyLeq(y, x)
    ensures LeqAll(y, Insert(x, s))
  {
    if s != [] && !KeyLeq(x, s[0]) {
      InsertLeqAll(y, x, s[1..]);
    }
  }

  lemma {:induction false} InsertSorted(x: MemoryStep, s: seq<MemoryStep>)
    requires Sorted(s)
    ensures Sorted(Insert(x, s))
  {
    if s != [] {
      if KeyLeq(x, s[0]) {
        assert LeqAll(x, s);
      } else {
        InsertSorted(x, s[1..]);
        assert LeqAll(s[0], s[1..]);
        InsertLeqAll(s[0], x, s[1..]);
      }
    }
  }

  /** Inserting `x` adds it to exactly the group of steps sharing its start
      time, at the front of that group. */
  lemma {:induction false} InsertWithStart(x: MemoryStep, s: seq<MemoryStep>, t: Option<int>)
    ensures WithStart(Insert(x, s), t) == (if x.startTime == t then [x] else []) + WithStart(s, t)
  {
    if s != [] {
      if KeyLeq(x, s[0]) {
        assert ([x] + s)[1..] == s;
      } else {
        InsertWithStart(x, s[1..], t);
        assert ([s[0]] + Insert(x, s[1..]))[1..] == Insert(x, s[1..]);
        // `s[0]` has a strictly smaller key than `x`, so at most one of the
        // two has start time `t`.
        assert s[0].startTime != x.startTime;
      }
    }
  }

  /** `_sort_memory_steps`: Python's stable `sorted` by the key above. The
      result is a permutation, it is ordered by key, and the steps sharing a
      key keep their input order. */
  function SortMemorySteps(steps: seq<MemoryStep>): (r: seq<MemoryStep>)
    ensures multiset(r) == multiset(steps)
    ensures Sorted(r)
    ensures forall t :: WithStart(r, t) == WithStart(steps, t)
  {
    if steps == [] then []
    else
      var rest := SortMemorySteps(steps[1..]);
      SortStep(steps, rest);
      Insert(steps[0], rest)
  }

  lemma SortStep(steps: seq<MemoryStep>, rest: seq<MemoryStep>)
    requires steps != []
    requires multiset(rest) == multiset(steps[1..])
    requires Sorted(rest)
    requires forall t :: WithStart(rest, t) == WithStart(steps[1..], t)
    ensures multiset(Insert(steps[0], rest)) == multiset(steps)
    ensures Sorted(Insert(steps[0], rest))
    ensures forall t :: WithStart(Insert(steps[0], rest), t) == WithStart(steps, t)
  {
    InsertMultiset(steps[0], rest);
    assert steps == [steps[0]] + steps[1..];
    InsertSorted(steps[0], rest);
    forall t
      ensures WithStart(Insert(steps[0], rest), t) == WithStart(steps, t)
    {
      InsertWithStart(steps[0], rest, t);
    }
  }

  /** Steps without a start time come before every timed step. */
  lemma UntimedStepsFirst(steps: seq<MemoryStep>, i: nat, j: nat)
    requires i < j < |SortMemorySteps(steps)|
    requires SortMemorySteps(steps)[j].startTime.None?
    ensures SortMemorySteps(steps)[i].startTime.None?
  {
  }

  /** An agent: its name, the input tokens its own monitor counted, its own
      memory steps, and the agents it manages, in registration order. */
  datatype Agent = Agent(name: Option<string>, inputTokens: nat, steps: seq<MemoryStep>, managed: seq<Agent>)

  /** `total_input_tokens`: the sum over the managed agents plus its own count. */
  function TotalInputTokens(a: Agent): nat
    decreases a, 1
  {
    ManagedInputTokens(a.managed) + a.inputTokens
  }

  function ManagedInputTokens(agents: seq<Agent>): nat
    decreases agents, 0
  {
    if agents == [] then 0
    else TotalInputTokens(agents[0]) + ManagedInputTokens(agents[1..])
  }

  /** `self.name if self.name else "unnamed_agent"`. */
  function AgentName(a: Agent): (n: string)
    ensures |n| > 0
  {
    if a.name.Some? && a.name.value != "" then a.name.value else "unnamed_agent"
  }

  /** The agent's own steps with `agent_name` set to its name. */
  function Tagged(a: Agent): (r: seq<MemoryStep>)
    ensures |r| == |a.steps|
    ensures forall i :: 0 <= i < |r| ==> r[i] == a.steps[i].(agentName := Some(AgentName(a)))
  {
    seq(|a.steps|, i requires 0 <= i < |a.steps| => a.steps[i].(agentName := Some(AgentName(a))))
  }

  /** `all_memory_steps`: own steps, tagged, then each managed agent's. */
  function AllMemorySteps(a: Agent): (r: seq<MemoryStep>)
    ensures forall i :: 0 <= i < |r| ==> r[i].agentName.Some? && |r[i].agentName.value| > 0
    ensures |a.steps| <= |r|
    ensures forall i :: 0 <= i < |a.steps| ==> r[i] == a.steps[i].(agentName := Some(AgentName(a)))
    decreases a, 1
  {
    Tagged(a) + ManagedMemorySteps(a.managed)
  }

  function ManagedMemorySteps(agents: seq<Agent>): (r: seq<MemoryStep>)
    ensures forall i :: 0 <= i < |r| ==> r[i].agentName.Some? && |r[i].agentName.value| > 0
    decreases agents, 0
  {
    if agents == [] then []
    else AllMemorySteps(agents[0]) + ManagedMemorySteps(agents[1..])
  }

  /** Every agent of the tree, in pre-order: the agent, then each managed
      subtree in turn. */
  function Agents(a: Agent): (r: seq<Agent>)
    decreases a, 1
  {
    [a] + AgentsOf(a.managed)
  }

  function AgentsOf(agents: seq<Agent>): seq<Agent>
    decreases agents, 0
  {
    if agents == [] then [] else Agents(agents[0]) + AgentsOf(agents[1..])
  }

  /** The own counts of a flat list of agents, added up. */
  function SumOwnTokens(agents: seq<Agent>): nat
  {
    if agents == [] then 0 else agents[0].inputTokens + SumOwnTokens(agents[1..])
  }

  /** The tagged own steps of a flat list of agents, concatenated. */
  function ConcatTagged(agents: seq<Agent>): seq<MemoryStep>
  {
    if agents == [] then [] else Tagged(agents[0]) + ConcatTagged(agents[1..])
  }

  lemma {:induction false} SumOwnTokensAppend(x: seq<Agent>, y: seq<Agent>)
    ensures SumOwnTokens(x + y) == SumOwnTokens(x) + SumOwnTokens(y)
  {
    if x == [] {
      assert x + y == y;
    } else {
      assert (x + y)[1..] == x[1..] + y;
      SumOwnTokensAppend(x[1..], y);
    }
  }

  lemma {:induction false} ConcatTaggedAppend(x: seq<Agent>, y: seq<Agent>)
    ensures ConcatTagged(x + y) == ConcatTagged(x) + ConcatTagged(y)
  {
    if x == [] {
      assert x + y == y;
    } else {
      assert (x + y)[1..] == x[1..] + y;
      ConcatTaggedAppend(x[1..], y);
    }
  }

  /** `total_input_tokens` is the sum of the own counts of every agent in
      the tree. */
  lemma {:induction false} TotalInputTokensIsTreeSum(a: Agent)
    ensures TotalInputTokens(a) == SumOwnTokens(Agents(a))
    decreases a, 1
  {
    ManagedInputTokensIsTreeSum(a.managed);
    SumOwnTokensAppend([a], AgentsOf(a.managed));
  }

  lemma {:induction false} ManagedInputTokensIsTreeSum(agents: seq<Agent>)
    ensures ManagedInputTokens(agents) == SumOwnTokens(AgentsOf(agents))
    decreases agents, 0
  {
    if agents != [] {
      TotalInputTokensIsTreeSum(agents[0]);
      ManagedInputTokensIsTreeSum(agents[1..]);
      SumOwnTokensAppend(Agents(agents[0]), AgentsOf(agents[1..]));
    }
  }

  /** `all_memory_steps` is every agent's tagged own steps, agents taken in
      pre-order; in particular its length is the tree's total step count. */
  lemma {:induction false} AllMemoryStepsIsPreorder(a: Agent)
    ensures AllMemorySteps(a) == ConcatTagged(Agents(a))
    decreases a, 1
  {
    ManagedMemoryStepsIsPreorder(a.managed);
    ConcatTaggedAppend([a], AgentsOf(a.managed));
  }

  lemma {:induction false} ManagedMemoryStepsIsPreorder(agents: seq<Agent>)
    ensures ManagedMemorySteps(agents) == ConcatTagged(AgentsOf(agents))
    decreases agents, 0
  {
    if agents != [] {
      AllMemoryStepsIsPreorder(agents[0]);
      ManagedMemoryStepsIsPreorder(agents[1..]);
      ConcatTaggedAppend(Agents(agents[0]), AgentsOf(agents[1..]));
    }
  }

  /** The number of own steps of a flat list of agents. */
  function StepCount(agents: seq<Agent>): nat
  {
    if agents == [] then 0 else |agents[0].steps| + StepCount(agents[1..])
  }

  lemma {:induction false} ConcatTaggedLength(agents: seq<Agent>)
    ensures |ConcatTagged(agents)| == StepCount(agents)
  {
    if agents != [] {
      ConcatTaggedLength(agents[1..]);
    }
  }

  /** `all_memory_steps` holds as many steps as all agents of the tree own. */
  lemma AllMemoryStepsLength(a: Agent)
    ensures |AllMemorySteps(a)| == StepCount(Agents(a))
  {
    AllMemoryStepsIsPreorder(a);
    ConcatTaggedLength(Agents(a));
  }
}
