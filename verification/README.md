# AgentDisplay: a verified model of the live agent-trace message

`AgentDisplay` (core/display.py) turns the stream of state updates from an
agent into one chat message that is edited over and over. The agent reports
thinking fragments, tool calls, tool results and a final answer. The display
keeps an append-only log of tagged entries (`thinking`, `tool_call`,
`tool_result`), a buffer of thought fragments that have not been flushed, and
the final-answer fragments. Every known status except an empty `thinking` or
`final_stream` update asks for a render. If the render interval has passed
since the last successful edit, the display rebuilds the message text. It
escapes the text as HTML, cuts long tool results, and keeps only the last 2000
characters of the log section. It then asks the chat platform to edit the
message. So there is at most one successful edit per interval. After a
failed edit, the next update that asks for a render tries again.

The model is written in the functional style. The state is an immutable
record. `update` is a pure transition
`(state, event, now, sink outcome) -> (state', attempt)`. The clock reading and
the sink's success or failure are inputs.

| file | module | what |
|---|---|---|
| text.dfy | `Text` | `"".join`, Python's `str.replace` for a non-empty pattern, a character count |
| html.dfy | `Html` | `_sanitize_html`, its inverse, and the proof that the three replace passes escape each character on its own |
| buffer.dfy | `Buffer` | log entries, the state record, the initial state |
| render.dfy | `Render` | `_build_text`: entry lines, live thinking line, the 2000-character cap, the placeholder |
| display.dfy | `Display` | `update` and `_try_render`: events, flushing, throttle, sink outcome |
| runs.dfy | `Runs` | properties of whole sequences of updates |

A run is a sequence of `update` calls. The main results are these:

- Every thought fragment is in the log or still pending, in arrival order. None is lost or duplicated (`Runs.RunKeepsThoughts`).
- Tool calls and results appear in arrival order (`Runs.RunKeepsActions`).
- The log only grows (`Runs.RunLogsGrow`).
- Rendering never changes the buffer (`Runs.RunIgnoresSink`).
- Inside the throttle window nothing is sent (`Runs.QuietWindow`).
- `final` replaces the streamed answer (`Runs.FinalReplaces`).
- Sanitizing can be undone exactly (`Html.UnescapeSanitize`).
- The message is never empty (`Render.BuildTextPlaceholder`).

## Model

| member | source | states |
|---|---|---|
| Html.SanitizeEscapes | core/display.py:147-150 | The three chained replacements (`&` first, then `<`, then `>`) produce the same text as escaping each character on its own, so no entity is escaped twice. |
| Html.UnescapeSanitize | core/display.py:147-150 | Replacing `&lt;`, then `&gt;`, then `&amp;` in the sanitized text gives back the original text for every input. |
| Html.SanitizeNoBrackets | core/display.py:147-150 | Sanitized text contains no `<` and no `>`, so free text can never open or close a tag. |
| Html.SanitizeLength | core/display.py:147-150 | The sanitized length is the input length plus 4 per `&` and 3 per `<` or `>`. |
| Html.SanitizeEmpty | core/display.py:149-150 | The output is empty exactly when the input is empty. Text with none of the three characters is returned unchanged. |
| Html.SanitizeAppend | core/display.py:147-150 | Sanitizing a concatenation is the concatenation of the sanitized parts. |
| Buffer.FormatCall | core/display.py:42-44 | The tool-call text is exactly the tool name, then `(`, then the arguments, then `)`: each part can be read back from its position. |
| Render.ResultCut | core/display.py:118-121 | A tool result is cut to its first 200 characters plus `...` exactly when it is longer than 200 characters. Otherwise it is shown whole. The cut is made before escaping, so the escaped text un-escapes to exactly that cut. |
| Render.EntryLineSlot | core/display.py:110-121 | Each entry line is its fixed opening, then an escaped slot with no `<` or `>` that un-escapes to the entry's shown text, then its fixed closing. |
| Render.EntriesAppend | core/display.py:109-121 | Appending entries to the log appends their lines to the log text and leaves earlier lines untouched. |
| Render.EntriesEmpty | core/display.py:109-121 | The text of the entry lines is empty exactly when the log is empty. |
| Render.LiveLineShown | core/display.py:123-125 | The live "Thinking..." line appears exactly when the joined pending thought is non-empty. It starts with its fixed opening, ends with a newline, and its middle un-escapes to the joined fragments. |
| Render.LogSectionEmpty | core/display.py:109-125 | The log section is empty exactly when nothing is logged and nothing is pending. |
| Render.Cap | core/display.py:127-131 | A log section of up to 2000 characters is kept whole. A longer one becomes the earlier-logs marker plus its last 2000 characters. The result is never longer than 2000 characters plus the marker. |
| Render.BuildTextPlaceholder | core/display.py:133-145 | The message is never empty. It is `...` exactly when there are no log entries, no pending thought, and the final answer is empty or is itself `...`. |
| Render.BuildTextEndsWithFinal | core/display.py:133-140 | The message ends with the escaped final answer, which is never cut and un-escapes to the concatenated final-answer fragments. |
| Render.LiveLineSurvivesCap | core/display.py:123-131 | The cap drops text only from the front. A live thinking line of at most 2000 characters survives it whole, as the end of the kept log section, however long the log before it. |
| Render.LiveLineBeforeClose | core/display.py:123-138 | In the message, a pending thought whose live line fits in 2000 characters is shown whole, immediately before the closing `</blockquote>`. |
| Display.Flush | core/display.py:37-40 | A flush empties the pending thought. It appends one thought entry with the joined fragments if the buffer was non-empty, and nothing otherwise. Nothing else changes. |
| Display.Apply | core/display.py:25-70 | Per event: the log only grows. `thinking` appends a non-empty fragment to the buffer. `tool_use`, `final_stream` and `final` flush first, then add their own entry. `observation` appends exactly one result and changes nothing else. `final_stream` appends to the final answer; `final` replaces it. A render is requested unless the status is unknown, or the event is `thinking` or `final_stream` with empty content. Unknown statuses and empty thinking leave the state unchanged. |
| Display.TryRender | core/display.py:74-95 | The sink is called, with the built text, exactly when forced or when at least the interval has passed since the last successful edit. Only a delivered edit moves the clock, to the completion time. A failure leaves the state unchanged and is not reported. The buffer is never touched. |
| Display.Update | core/display.py:25-72 | An update sends exactly when the event asks for a render and the interval has passed (it never forces). The text sent is built from the post-event state. A failed edit leaves exactly the post-event state. The clock moves only on a delivered edit. |
| Runs.UpdateOnlyMovesClock | core/display.py:79-95 | After any update, the state differs from the event's own effect only in the throttle clock. |
| Runs.ApplyKeepsThoughts | core/display.py:31-66 | One event never loses or duplicates thought text. The logged thoughts followed by the pending thought grow by exactly the event's own fragment. |
| Runs.ApplyKeepsActions | core/display.py:36-50 | One event adds exactly its own tool-call or tool-result entry to the non-thought part of the log, and nothing else. |
| Runs.RunIgnoresSink | core/display.py:74-95 | Over a whole run, the buffer depends only on the events. Clock readings and sink successes or failures change nothing but the throttle clock. |
| Runs.RunLogsGrow | core/display.py:39-65 | Over any run, the starting log is a prefix of the final log. |
| Runs.RunEntriesGrow | core/display.py:109-121 | Over any run, the rendered entry lines of the starting log are a prefix of those of the final log. |
| Runs.RunKeepsThoughts | core/display.py:31-66 | Over any run, the logged thoughts plus the pending thought equal what they were before, followed by every thinking fragment of the run in arrival order. |
| Runs.RunKeepsActions | core/display.py:36-50 | Over any run, the tool calls and results in the log are the earlier ones followed by one per `tool_use` or `observation`, in arrival order. |
| Runs.QuietWindow | core/display.py:74-77 | If every call falls within the interval after the last successful edit, the run sends nothing and the clock does not move. |
| Runs.FailuresKeepClock | core/display.py:74-95 | If every edit of a run fails, the throttle clock never moves. The sink is then called exactly once for each update that asks for a render and is due against the unchanged clock. |
| Runs.OthersKeepFinal | core/display.py:58-68 | Events other than `final_stream` and `final` leave the final-answer fragments unchanged over any run. |
| Runs.FinalReplaces | core/display.py:62-68 | After the last `final(c)`, with no later `final_stream` or `final`, the final answer is exactly `c`, whatever was streamed earlier. |
| Runs.StreamThenFinal | core/display.py:52-68 | Starting from an empty final answer, `final_stream("a")` and `final_stream("b")` give `ab`. Adding `final("c")` gives `c`. |
| Runs.ThrottleExample | core/display.py:74-91 | Starting fresh (clock 0, interval 2 seconds), three thinking updates at t, t+0.5 and t+2.1, where the first edit completes at t+d. If d is at most 0.1 seconds, there are exactly two edits: the first shows the first fragment and the second shows all three. If the first edit took longer, the interval has not passed at t+2.1 and there is only the first edit. The outcomes of the later edits do not matter. |
| Runs.FinalIsThrottled | core/display.py:62-72 | Within the interval, `final` is not rendered, but it still sets the final answer. |
| Runs.PendingSurvivesObservation | core/display.py:47-50 | A thought followed by a tool result stays pending. Only the result is logged. |

## Left out

- core/memory_rag.py is not part of this model. It is a wrapper over a vector database and an embedding library, and its behaviour lives in those foreign libraries.
- The Telegram `edit_message_text` call (core/display.py:84-90) is an abstract sink. Its outcome is either `Delivered(at)` or `Failed`. `at` stands for the `time.time()` reading taken after the call returns (line 91).
- `time.time()` is replaced by the `now` parameter. Floating-point time is modelled as `real`, and only the `>=` comparison matters.
- `asyncio.Lock` and async scheduling (lines 21 and 79) are left out. Each render is treated as atomic, with no concurrent update during an edit.
- The commented-out logging of sink errors (line 94) is left out. All exceptions are swallowed alike; the model does not tell failure kinds apart because the code does not.
- Events are a datatype rather than a dictionary. An absent `content` is the empty string, which Python treats as false just like `None`. `tool`, `args` and `result` are the strings that Python's `str()` and f-string formatting would produce; `None` and `repr` formatting are not modelled.
- The emoji prefixes are kept code point for code point as they appear in the file, in mis-decoded form. Otherwise they are opaque constants.
- No bound on the total message length (4096 on the platform) is claimed. The code cuts only the log section, never the final answer.
- Markup well-formedness after the 2000-character cut is not claimed. The cut is taken from already-escaped text and may split an entity or a tag.
- `update` never passes `force=True` (core/display.py:72), so `final` is throttled like every other event (`Runs.FinalIsThrottled`).
- An `observation`, an unknown status or an empty `thinking` update does not flush the pending thought (`Runs.PendingSurvivesObservation`).
- Calling `_build_text` twice on the same state gives the same text. That holds trivially because `BuildText` is a pure function, so no lemma states it.
