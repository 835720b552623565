/** The event state machine of the live display (`update`) and its throttled
    render step (`_try_render`). The clock and the message sink are inputs:
    `now` is the clock reading taken before the throttle test, and the sink's
    outcome says whether the edit went through and, if so, the clock reading
    taken after it returned. */
module Display {
  import opened Text
  import opened Buffer
  import opened Render

  /** A state update from the agent. The five known statuses carry the
      fields the source reads; any other status is `Unknown`. An absent
      `content` is the empty string, which is falsy just as `None` is. */
  datatype Event =
    | Thinking(content: string)
    | ToolUse(tool: string, args: string)
    | Observation(result: string)
    | FinalStream(content: string)
    | Final(content: string)
    | Unknown(status: string)
  {
    /** The events that move the pending thought into the log first. */
    predicate Flushes() {
      ToolUse? || FinalStream? || Final?
    }

    /** The events after which `update` tries a render: every known status
        except `thinking` and `final_stream` with empty content. */
    predicate RequestsRender() {
      !(Unknown? || ((Thinking? || FinalStream?) && content == ""))
    }
  }

  /** What the message sink did with an edit. */
  datatype SinkOutcome =
    | Delivered(at: real)
    | Failed

  /** Whether the sink was called, and with which text. */
  datatype Attempt =
    | Skipped
    | Sent(text: string)

  datatype Step = Step(state: State, attempt: Attempt)

  /** The entry a flush appends: one thought holding all pending fragments,
      or nothing when no fragment is pending. */
  function FlushedEntries(s: State): (r: seq<Entry>)
    ensures |r| <= 1
    ensures r == [] <==> s.thinking == []
  {
    if s.thinking != [] then [Thought(Join(s.thinking))] else []
  }

  /** Moves the pending thought into the log and empties it. */
  function Flush(s: State): (r: State)
    ensures r.thinking == []
    ensures r.logs == s.logs + FlushedEntries(s)
    ensures r.finalParts == s.finalParts && r.lastRender == s.lastRender && r.interval == s.interval
  {
    s.(logs := s.logs + FlushedEntries(s), thinking := [])
  }

  /** The state change of `update`, before any rendering, and whether the
      event asks for a render. */
  function Apply(s: State, e: Event): (r: (State, bool))
    ensures s.logs <= r.0.logs
    ensures r.0.lastRender == s.lastRender && r.0.interval == s.interval
    ensures e.Flushes() ==> r.0.thinking == [] && s.logs + FlushedEntries(s) <= r.0.logs
    ensures e.Thinking? ==>
      && r.0.logs == s.logs && r.0.finalParts == s.finalParts
      && r.0.thinking == s.thinking + (if e.content != "" then [e.content] else [])
    ensures e.ToolUse? ==>
      && r.0.logs == s.logs + FlushedEntries(s) + [ToolCall(FormatCall(e.tool, e.args))]
      && r.0.finalParts == s.finalParts
    ensures e.Observation? ==> r.0 == s.(logs := s.logs + [ToolResult(e.result)])
    ensures e.FinalStream? ==>
      && r.0.logs == s.logs + FlushedEntries(s)
      && r.0.finalParts == s.finalParts + (if e.content != "" then [e.content] else [])
    ensures e.Final? ==>
      && r.0.logs == s.logs + FlushedEntries(s)
      && r.0.finalParts == (if e.content != "" then [e.content] else [])
    ensures r.1 == e.RequestsRender()
    ensures e.Unknown? || (e.Thinking? && e.content == "") ==> r.0 == s
  {
    match e
    case Thinking(c) =>
      if c != "" then (s.(thinking := s.thinking + [c]), true) else (s, false)
    case ToolUse(tool, args) =>
      var f := Flush(s);
      var logs := f.logs + [ToolCall(FormatCall(tool, args))];
      assert s.logs + FlushedEntries(s) <= logs;
      (f.(logs := logs), true)
    case Observation(x) =>
      (s.(logs := s.logs + [ToolResult(x)]), true)
    case FinalStream(c) =>
      var f := Flush(s);
      assert s.logs <= f.logs;
      if c != "" then (f.(finalParts := f.finalParts + [c]), true) else (f, false)
    case Final(c) =>
      var f := Flush(s);
      assert s.logs <= f.logs;
      (f.(finalParts := if c != "" then [c] else []), true)
    case Unknown(_) =>
      (s, false)
  }

  /** Whether the throttle lets a render through at time `now`. */
  predicate Due(s: State, force: bool, now: real)
  {
    force || now - s.lastRender >= s.interval
  }

  /** `_try_render`: when due, the sink is called with the built text; only
      a delivered edit moves the clock, and a failure is swallowed. */
  function TryRender(s: State, force: bool, now: real, outcome: SinkOutcome): (r: Step)
    ensures r.attempt.Sent? <==> Due(s, force, now)
    ensures r.attempt.Sent? ==> r.attempt.text == BuildText(s)
    ensures r.state.logs == s.logs && r.state.thinking == s.thinking
    ensures r.state.finalParts == s.finalParts && r.state.interval == s.interval
    ensures r.state.lastRender != s.lastRender ==> r.attempt.Sent? && outcome.Delivered?
    ensures r.attempt.Sent? && outcome.Delivered? ==> r.state.lastRender == outcome.at
    ensures outcome.Failed? ==> r.state == s
  {
    if !Due(s, force, now) then Step(s, Skipped)
    else
      var text := BuildText(s);
      match outcome
      case Delivered(at) => Step(s.(lastRender := at), Sent(text))
      case Failed => Step(s, Sent(text))
  }

  /** `update`: apply the event, then try a render when the event asks for
      one. The source never forces this render. */
  function Update(s: State, e: Event, now: real, outcome: SinkOutcome): (r: Step)
    ensures r.attempt.Sent? <==> Apply(s, e).1 && Due(s, false, now)
    ensures r.attempt.Sent? ==> r.attempt.text == BuildText(Apply(s, e).0)
    ensures outcome.Failed? ==> r.state == Apply(s, e).0
    ensures r.state.lastRender == (if r.attempt.Sent? && outcome.Delivered? then outcome.at else s.lastRender)
  {
    var (s1, dirty) := Apply(s, e);
    if dirty then TryRender(s1, false, now, outcome) else Step(s1, Skipped)
  }
}
