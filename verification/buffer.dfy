/** The render buffer's state: the append-only log of tagged entries, the
    pending-thought fragments, the final-answer fragments and the throttle
    clock of one live message. */
module Buffer {
  import opened Text

  /** One log entry, tagged as in the source: `thinking`, `tool_call` or
      `tool_result`. A tool call holds its already formatted `name(args)`
      text. */
  datatype Entry =
    | Thought(text: string)
    | ToolCall(call: string)
    | ToolResult(result: string)

  /** `lastRender` is the clock reading after the last successful edit;
      `interval` is the minimum time between edits, in seconds. */
  datatype State = State(
    logs: seq<Entry>,
    thinking: seq<string>,
    finalParts: seq<string>,
    lastRender: real,
    interval: real)

  /** The state of a freshly created display: nothing logged, never rendered,
      a two-second interval. */
  const Initial := State([], [], [], 0.0, 2.0)

  /** The `tool_call` text `f"{tool_name}({args})"`, with both parts already
      turned into strings. */
  function FormatCall(tool: string, args: string): (r: string)
    ensures |r| == |tool| + |args| + 2
    ensures r[..|tool|] == tool && r[|tool|] == '(' && r[|r| - 1] == ')'
    ensures r[|tool| + 1..|r| - 1] == args
  {
    tool + "(" + args + ")"
  }

  /** The pending thought as one text. */
  function PendingText(s: State): string
  {
    Join(s.thinking)
  }

  /** The final answer as one text. */
  function FinalText(s: State): string
  {
    Join(s.finalParts)
  }
}
