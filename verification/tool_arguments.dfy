/**
 * Python values as far as the agents look at them, and the argument patch
 * `WrappedToolCallingAgent.execute_tool_call` applies before delegating to
 * the framework: a call to a managed agent whose `additional_args` is
 * missing or falsy gets `additional_args = {}`. The patch works on a deep
 * copy, which a pure function models directly: the caller's value is never
 * changed.
 */
module ToolArguments {
  import opened Text

  /** The Python values tool arguments and code outputs are built from. */
  datatype PyValue =
    | PyNone
    | PyBool(b: bool)
    | PyInt(i: int)
    | PyFloat(x: real)
    | PyStr(s: string)
    | PyList(items: seq<PyValue>)
    | PyDict(entries: map<string, PyValue>)

  /** Python truthiness. */
  predicate Truthy(v: PyValue)
  {
    match v
    case PyNone => false
    case PyBool(b) => b
    case PyInt(i) => i != 0
    case PyFloat(x) => x != 0.0
    case PyStr(s) => |s| > 0
    case PyList(items) => |items| > 0
    case PyDict(entries) => |entries| > 0
  }

  /** `arguments: dict[str, str] | str`. */
  datatype Arguments = DictArgs(entries: map<string, PyValue>) | TextArgs(text: string)

  const AdditionalArgs: string := "additional_args"

  /** `dict.get(key)`: a missing key reads as `None`. */
  function Get(entries: map<string, PyValue>, key: string): PyValue
  {
    if key in entries then entries[key] else PyNone
  }

  /** The condition under which the arguments are rewritten. */
  predicate NeedsPatch(toolName: string, args: Arguments)
  {
    EndsWith(toolName, "agent") && args.DictArgs? && !Truthy(Get(args.entries, AdditionalArgs))
  }

  /** The arguments handed on to the framework's `execute_tool_call`. */
  function PatchArguments(toolName: string, args: Arguments): (r: Arguments)
    ensures !NeedsPatch(toolName, args) ==> r == args
    ensures NeedsPatch(toolName, args) ==>
              && r.DictArgs?
              && r.entries.Keys == args.entries.Keys + {AdditionalArgs}
              && r.entries[AdditionalArgs] == PyDict(map[])
              && forall k :: k in args.entries && k != AdditionalArgs ==> r.entries[k] == args.entries[k]
    ensures r.DictArgs? <==> args.DictArgs?
  {
    if NeedsPatch(toolName, args) then
      DictArgs(args.entries[AdditionalArgs := PyDict(map[])])
    else
      args
  }

  /** Patching twice is patching once: the empty dict the patch inserts is
      itself falsy, so a second pass writes the same value again. */
  lemma PatchArgumentsIdempotent(toolName: string, args: Arguments)
    ensures PatchArguments(toolName, PatchArguments(toolName, args)) == PatchArguments(toolName, args)
  {
    if NeedsPatch(toolName, args) {
      var r := PatchArguments(toolName, args);
      assert r.entries[AdditionalArgs := PyDict(map[])] == r.entries;
    }
  }

  /** After the patch, a call to an agent tool always carries
      `additional_args`, and it is either the caller's truthy value or `{}`. */
  lemma PatchedAgentCallHasAdditionalArgs(toolName: string, entries: map<string, PyValue>)
    requires EndsWith(toolName, "agent")
    ensures var r := PatchArguments(toolName, DictArgs(entries));
            && AdditionalArgs in r.entries
            && (r.entries[AdditionalArgs] == PyDict(map[]) || Truthy(r.entries[AdditionalArgs]))
  {
  }
}
