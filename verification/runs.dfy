/** Properties of whole runs: a sequence of `update` calls, each with its own
    clock reading and sink outcome. */
module Runs {
  import opened Text
  import opened Buffer
  import opened Render
  import opened Display

  /** One `update` call with the clock reading and sink outcome it meets. */
  datatype Input = Input(event: Event, now: real, outcome: SinkOutcome)

  /** The state after feeding the inputs in order. */
  function Run(s: State, ins: seq<Input>): State
    decreases |ins|
  {
    if ins == [] then s
    else Run(Update(s, ins[0].event, ins[0].now, ins[0].outcome).state, ins[1..])
  }

  /** The texts handed to the sink during the run, in order. */
  function Edits(s: State, ins: seq<Input>): seq<string>
    decreases |ins|
  {
    if ins == [] then []
    else
      var r := Update(s, ins[0].event, ins[0].now, ins[0].outcome);
      (if r.attempt.Sent? then [r.attempt.text] else []) + Edits(r.state, ins[1..])
  }

  /** The buffer changes alone, with no clock and no sink. */
  function ApplyAll(s: State, es: seq<Event>): State
    decreases |es|
  {
    if es == [] then s else ApplyAll(Apply(s, es[0]).0, es[1..])
  }

  function Events(ins: seq<Input>): (es: seq<Event>)
    ensures |es| == |ins|
    ensures forall i :: 0 <= i < |ins| ==> es[i] == ins[i].event
  {
    if ins == [] then [] else [ins[0].event] + Events(ins[1..])
  }

  /** The thought text held in the log: all `Thought` entries concatenated. */
  function LoggedThoughts(logs: seq<Entry>): string
  {
    if logs == [] then ""
    else LoggedThoughts(logs[..|logs| - 1]) + (match logs[|logs| - 1] case Thought(t) => t case _ => "")
  }

  /** The log without its thoughts: the tool calls and results in order. */
  function Actions(logs: seq<Entry>): seq<Entry>
  {
    if logs == [] then []
    else Actions(logs[..|logs| - 1]) + (if logs[|logs| - 1].Thought? then [] else [logs[|logs| - 1]])
  }

  /** The thought text an event contributes. */
  function ThoughtOf(e: Event): string
  {
    if e.Thinking? then e.content else ""
  }

  /** The tool entries an event contributes. */
  function ActionOf(e: Event): seq<Entry>
  {
    match e
    case ToolUse(tool, args) => [ToolCall(FormatCall(tool, args))]
    case Observation(x) => [ToolResult(x)]
    case _ => []
  }

  function AllThoughts(es: seq<Event>): string
  {
    if es == [] then "" else ThoughtOf(es[0]) + AllThoughts(es[1..])
  }

  function AllActions(es: seq<Event>): seq<Entry>
  {
    if es == [] then [] else ActionOf(es[0]) + AllActions(es[1..])
  }

  // ---------------------------------------------------------------------
  // Helpers on the log projections

  lemma {:induction false} LoggedThoughtsAppend(a: seq<Entry>, b: seq<Entry>)
    ensures LoggedThoughts(a + b) == LoggedThoughts(a) + LoggedThoughts(b)
    decreases |b|
  {
    if b == [] {
      assert a + b == a;
    } else {
      var b' := b[..|b| - 1];
      assert (a + b)[..|a + b| - 1] == a + b';
      LoggedThoughtsAppend(a, b');
    }
  }

  lemma {:induction false} ActionsAppend(a: seq<Entry>, b: seq<Entry>)
    ensures Actions(a + b) == Actions(a) + Actions(b)
    decreases |b|
  {
    if b == [] {
      assert a + b == a;
    } else {
      var b' := b[..|b| - 1];
      assert (a + b)[..|a + b| - 1] == a + b';
      ActionsAppend(a, b');
    }
  }

  lemma SingleEntry(e: Entry)
    ensures LoggedThoughts([e]) == (if e.Thought? then e.text else "")
    ensures Actions([e]) == (if e.Thought? then [] else [e])
  {
    assert [e][..0] == [];
  }

  /** What a flush moves into the log is exactly the pending thought. */
  lemma FlushKeepsThought(s: State)
    ensures LoggedThoughts(FlushedEntries(s)) == Join(s.thinking)
    ensures Actions(FlushedEntries(s)) == []
  {
    if s.thinking != [] {
      SingleEntry(Thought(Join(s.thinking)));
    }
  }

  // ---------------------------------------------------------------------
  // One event

  /** No thought text is lost or duplicated by an event: the thoughts in the
      log followed by the pending thought grow by exactly the event's own
      thought. */
  lemma ApplyKeepsThoughts(s: State, e: Event)
    ensures var r := Apply(s, e).0;
      LoggedThoughts(r.logs) + PendingText(r) == LoggedThoughts(s.logs) + PendingText(s) + ThoughtOf(e)
  {
    var r := Apply(s, e).0;
    match e
    case Thinking(c) =>
      assert r.logs == s.logs;
      if c != "" {
        assert r.thinking == s.thinking + [c];
        JoinAppend(s.thinking, [c]);
      }
    case ToolUse(tool, args) =>
      var call := ToolCall(FormatCall(tool, args));
      assert r.logs == s.logs + FlushedEntries(s) + [call] && r.thinking == [];
      FlushThenLog(s, [call]);
    case Observation(x) =>
      assert r.logs == s.logs + [ToolResult(x)] && r.thinking == s.thinking;
      FlushThenLog(s.(thinking := []), [ToolResult(x)]);
      assert s.(thinking := []).logs + [] + [ToolResult(x)] == r.logs;
    case FinalStream(_) =>
      assert r.logs == s.logs + FlushedEntries(s) && r.thinking == [];
      FlushThenLog(s, []);
      assert s.logs + FlushedEntries(s) + [] == r.logs;
    case Final(_) =>
      assert r.logs == s.logs + FlushedEntries(s) && r.thinking == [];
      FlushThenLog(s, []);
      assert s.logs + FlushedEntries(s) + [] == r.logs;
    case Unknown(_) =>
  }

  /** A flush followed by entries holding no thought keeps the thought text. */
  lemma FlushThenLog(s: State, extra: seq<Entry>)
    requires forall i :: 0 <= i < |extra| ==> !extra[i].Thought?
    ensures LoggedThoughts(s.logs + FlushedEntries(s) + extra) == LoggedThoughts(s.logs) + PendingText(s)
  {
    var fl := FlushedEntries(s);
    FlushKeepsThought(s);
    LoggedThoughtsAppend(s.logs + fl, extra);
    LoggedThoughtsAppend(s.logs, fl);
    NoThoughts(extra);
  }

  lemma {:induction false} NoThoughts(logs: seq<Entry>)
    requires forall i :: 0 <= i < |logs| ==> !logs[i].Thought?
    ensures LoggedThoughts(logs) == ""
  {
    if logs != [] {
      NoThoughts(logs[..|logs| - 1]);
    }
  }

  /** The tool entries in the log grow by exactly the event's tool entry. */
  lemma ApplyKeepsActions(s: State, e: Event)
    ensures Actions(Apply(s, e).0.logs) == Actions(s.logs) + ActionOf(e)
  {
    var r := Apply(s, e).0;
    var fl := FlushedEntries(s);
    if e.Flushes() {
      FlushKeepsThought(s);
      ActionsAppend(s.logs, fl);
      if e.ToolUse? {
        var call := ToolCall(FormatCall(e.tool, e.args));
        ActionsAppend(s.logs + fl, [call]);
        SingleEntry(call);
      }
    } else if e.Observation? {
      ActionsAppend(s.logs, [ToolResult(e.result)]);
      SingleEntry(ToolResult(e.result));
    }
  }

  /** Rendering only reads the buffer: after any update, whatever the clock
      and the sink did, the buffer is the one the event alone produces. */
  lemma UpdateOnlyMovesClock(s: State, e: Event, now: real, outcome: SinkOutcome)
    ensures var r := Update(s, e, now, outcome).state;
      r.(lastRender := s.lastRender) == Apply(s, e).0
  {
  }

  // ---------------------------------------------------------------------
  // Whole runs

  lemma {:induction false} RunAppend(s: State, a: seq<Input>, b: seq<Input>)
    ensures Run(s, a + b) == Run(Run(s, a), b)
    decreases |a|
  {
    if a == [] {
      assert a + b == b;
    } else {
      assert (a + b)[0] == a[0];
      assert (a + b)[1..] == a[1..] + b;
      RunAppend(Update(s, a[0].event, a[0].now, a[0].outcome).state, a[1..], b);
    }
  }

  /** The buffer after a run depends only on the events: the clock readings
      and the sink's successes and failures change nothing but the throttle
      clock. */
  lemma {:induction false} RunIgnoresSink(s: State, ins: seq<Input>)
    ensures Run(s, ins).(lastRender := s.lastRender) == ApplyAll(s, Events(ins))
    decreases |ins|
  {
    if ins != [] {
      var i := ins[0];
      var s1 := Update(s, i.event, i.now, i.outcome).state;
      UpdateOnlyMovesClock(s, i.event, i.now, i.outcome);
      RunIgnoresSink(s1, ins[1..]);
      assert Events(ins)[1..] == Events(ins[1..]);
      ApplyAllClock(Apply(s, i.event).0, Events(ins[1..]), s1.lastRender);
      ApplyAllClock(Apply(s, i.event).0, Events(ins[1..]), s.lastRender);
    }
  }

  /** The buffer changes never look at the clock, and keep it. */
  lemma {:induction false} ApplyAllClock(s: State, es: seq<Event>, t: real)
    ensures ApplyAll(s.(lastRender := t), es) == ApplyAll(s, es).(lastRender := t)
    decreases |es|
  {
    if es != [] {
      ApplyAllClock(Apply(s, es[0]).0, es[1..], t);
    }
  }

  /** The log only grows: every earlier entry stays, in place and in order. */
  lemma {:induction false} RunLogsGrow(s: State, ins: seq<Input>)
    ensures s.logs <= Run(s, ins).logs
    decreases |ins|
  {
    if ins != [] {
      var s1 := Update(s, ins[0].event, ins[0].now, ins[0].outcome).state;
      RunLogsGrow(s1, ins[1..]);
    }
  }

  /** What the log section shows before the live line only grows at its
      end: earlier entry lines are never rewritten. */
  lemma RunEntriesGrow(s: State, ins: seq<Input>)
    ensures var before := EntriesText(s.logs);
      var after := EntriesText(Run(s, ins).logs);
      |before| <= |after| && after[..|before|] == before
  {
    var r := Run(s, ins);
    RunLogsGrow(s, ins);
    assert r.logs == s.logs + r.logs[|s.logs|..];
    EntriesAppend(s.logs, r.logs[|s.logs|..]);
  }

  /** Over a run, every thought fragment that arrived is in the log or still
      pending, concatenated in arrival order. */
  lemma {:induction false} RunKeepsThoughts(s: State, ins: seq<Input>)
    ensures var r := Run(s, ins);
      LoggedThoughts(r.logs) + PendingText(r) == LoggedThoughts(s.logs) + PendingText(s) + AllThoughts(Events(ins))
    decreases |ins|
  {
    if ins != [] {
      var i := ins[0];
      var s1 := Update(s, i.event, i.now, i.outcome).state;
      var r := Run(s, ins);
      assert r == Run(s1, ins[1..]);
      ApplyKeepsThoughts(s, i.event);
      assert s1.logs == Apply(s, i.event).0.logs && s1.thinking == Apply(s, i.event).0.thinking;
      var held := LoggedThoughts(s.logs) + PendingText(s);
      var held1 := LoggedThoughts(s1.logs) + PendingText(s1);
      assert held1 == held + ThoughtOf(i.event);
      RunKeepsThoughts(s1, ins[1..]);
      var rest := AllThoughts(Events(ins[1..]));
      assert LoggedThoughts(r.logs) + PendingText(r) == held1 + rest;
      assert Events(ins)[1..] == Events(ins[1..]);
      assert AllThoughts(Events(ins)) == ThoughtOf(i.event) + rest;
    }
  }

  /** Over a run, the tool calls and results are in the log in arrival order,
      each exactly once. */
  lemma {:induction false} RunKeepsActions(s: State, ins: seq<Input>)
    ensures Actions(Run(s, ins).logs) == Actions(s.logs) + AllActions(Events(ins))
    decreases |ins|
  {
    if ins != [] {
      var i := ins[0];
      var s1 := Update(s, i.event, i.now, i.outcome).state;
      ApplyKeepsActions(s, i.event);
      assert s1.logs == Apply(s, i.event).0.logs;
      RunKeepsActions(s1, ins[1..]);
      assert Events(ins)[1..] == Events(ins[1..]);
      assert AllActions(Events(ins)) == ActionOf(i.event) + AllActions(Events(ins[1..]));
    }
  }

  /** Leading-edge-skip throttle: while every call falls within the interval
      after the last successful edit, nothing is sent and the clock stays. */
  lemma {:induction false} QuietWindow(s: State, ins: seq<Input>)
    requires forall i :: 0 <= i < |ins| ==> ins[i].now - s.lastRender < s.interval
    ensures Edits(s, ins) == []
    ensures Run(s, ins).lastRender == s.lastRender
    decreases |ins|
  {
    if ins != [] {
      var s1 := Update(s, ins[0].event, ins[0].now, ins[0].outcome).state;
      assert s1.lastRender == s.lastRender && s1.interval == s.interval;
      QuietWindow(s1, ins[1..]);
    }
  }

  /** The calls of a run that ask for a render and find the display due,
      measured against a clock that stays at `last`. */
  function DueCalls(last: real, interval: real, ins: seq<Input>): nat
  {
    if ins == [] then 0
    else
      (if ins[0].event.RequestsRender() && ins[0].now - last >= interval then 1 else 0)
      + DueCalls(last, interval, ins[1..])
  }

  /** A run whose every edit fails leaves the throttle clock where it was, so
      the sink is called again on every call that asks for a render and is
      due against that unchanged clock. */
  lemma {:induction false} FailuresKeepClock(s: State, ins: seq<Input>)
    requires forall i :: 0 <= i < |ins| ==> ins[i].outcome.Failed?
    ensures Run(s, ins).lastRender == s.lastRender
    ensures |Edits(s, ins)| == DueCalls(s.lastRender, s.interval, ins)
    decreases |ins|
  {
    if ins != [] {
      var s1 := Update(s, ins[0].event, ins[0].now, ins[0].outcome).state;
      assert s1 == Apply(s, ins[0].event).0;
      FailuresKeepClock(s1, ins[1..]);
    }
  }

  /** Events other than `final_stream` and `final` leave the final answer
      alone. */
  lemma {:induction false} OthersKeepFinal(s: State, ins: seq<Input>)
    requires forall i :: 0 <= i < |ins| ==> !ins[i].event.FinalStream? && !ins[i].event.Final?
    ensures Run(s, ins).finalParts == s.finalParts
    decreases |ins|
  {
    if ins != [] {
      var s1 := Update(s, ins[0].event, ins[0].now, ins[0].outcome).state;
      OthersKeepFinal(s1, ins[1..]);
    }
  }

  /** `final` replaces the final answer: after the last `final(c)` with no
      later streamed fragment, the final answer is exactly `c`, whatever was
      streamed before. */
  lemma FinalReplaces(s: State, pre: seq<Input>, c: string, now: real, outcome: SinkOutcome, post: seq<Input>)
    requires forall i :: 0 <= i < |post| ==> !post[i].event.FinalStream? && !post[i].event.Final?
    ensures FinalText(Run(s, pre + [Input(Final(c), now, outcome)] + post)) == c
  {
    var mid := Run(s, pre);
    var fin := Input(Final(c), now, outcome);
    RunAppend(s, pre + [fin], post);
    RunAppend(s, pre, [fin]);
    var after := Run(mid, [fin]);
    assert after == Update(mid, Final(c), now, outcome).state;
    OthersKeepFinal(after, post);
  }

  /** The streamed answer is the concatenation of the streamed fragments;
      for example `final_stream("a")`, `final_stream("b")`, `final("c")`
      shows `c`, not `abc`. */
  lemma StreamThenFinal(s: State, t1: real, t2: real, t3: real, o1: SinkOutcome, o2: SinkOutcome, o3: SinkOutcome)
    requires s.finalParts == []
    ensures FinalText(Run(s, [Input(FinalStream("a"), t1, o1), Input(FinalStream("b"), t2, o2)])) == "ab"
    ensures FinalText(Run(s, [Input(FinalStream("a"), t1, o1), Input(FinalStream("b"), t2, o2), Input(Final("c"), t3, o3)])) == "c"
  {
    var ins := [Input(FinalStream("a"), t1, o1), Input(FinalStream("b"), t2, o2)];
    var r := Run(s, ins);
    assert r.finalParts == ["a", "b"] by {
      var s1 := Update(s, FinalStream("a"), t1, o1).state;
      assert s1.finalParts == ["a"];
      assert ins[1..] == [Input(FinalStream("b"), t2, o2)];
      assert Run(s1, ins[1..]) == Run(Update(s1, FinalStream("b"), t2, o2).state, []);
    }
    assert Join(["a", "b"]) == "a" + Join(["b"]);
    FinalReplaces(s, ins, "c", t3, o3, []);
    assert ins + [Input(Final("c"), t3, o3)] + [] == [Input(FinalStream("a"), t1, o1), Input(FinalStream("b"), t2, o2), Input(Final("c"), t3, o3)];
  }

  /** Two calls half a second apart with the default two-second interval
      send once; a third call 2.1 seconds after the first sends again, with
      every fragment accumulated so far, exactly when the first edit took at
      most 0.1 seconds: the interval counts from the clock reading taken
      after the edit returned. The clock is in seconds since the epoch, so
      the first call finds the display due. */
  lemma ThrottleExample(t: real, d: real, x: string, y: string, z: string, o2: SinkOutcome, o3: SinkOutcome)
    requires t >= 2.0 && d >= 0.0
    requires x != "" && y != "" && z != ""
    ensures var ins := [
        Input(Thinking(x), t, Delivered(t + d)),
        Input(Thinking(y), t + 0.5, o2),
        Input(Thinking(z), t + 2.1, o3)];
      && (d <= 0.1 ==> Edits(Initial, ins) == [BuildText(Initial.(thinking := [x])), BuildText(Initial.(thinking := [x, y, z]))])
      && (d > 0.1 ==> Edits(Initial, ins) == [BuildText(Initial.(thinking := [x]))])
  {
    var ins := [
      Input(Thinking(x), t, Delivered(t + d)),
      Input(Thinking(y), t + 0.5, o2),
      Input(Thinking(z), t + 2.1, o3)];
    var s1 := Initial.(thinking := [x], lastRender := t + d);
    var s2 := s1.(thinking := [x, y]);
    ThrottleFirstCalls(t, d, x, y, o2);
    ThrottleThirdEdit(t, d, x, y, z, o3);
    var third := Edits(s2, [ins[2]]);
    assert ins[1..][1..] == ins[2..] == [ins[2]];
    assert Edits(s1, ins[1..]) == third;
    assert Edits(Initial, ins) == [BuildText(Initial.(thinking := [x]))] + third;
  }

  /** The first call sends and moves the clock to `t + d`; the second, half a
      second later, only buffers. */
  lemma ThrottleFirstCalls(t: real, d: real, x: string, y: string, o2: SinkOutcome)
    requires t >= 2.0 && d >= 0.0
    requires x != "" && y != ""
    ensures Update(Initial, Thinking(x), t, Delivered(t + d))
      == Step(Initial.(thinking := [x], lastRender := t + d), Sent(BuildText(Initial.(thinking := [x]))))
    ensures Update(Initial.(thinking := [x], lastRender := t + d), Thinking(y), t + 0.5, o2)
      == Step(Initial.(thinking := [x, y], lastRender := t + d), Skipped)
  {
  }

  /** The edits made by the third call, 2.1 seconds after the first: it is
      due exactly when the first edit completed by `t + 0.1`. */
  lemma ThrottleThirdEdit(t: real, d: real, x: string, y: string, z: string, o3: SinkOutcome)
    requires t >= 2.0 && d >= 0.0
    requires z != ""
    ensures var third := Edits(Initial.(thinking := [x, y], lastRender := t + d), [Input(Thinking(z), t + 2.1, o3)]);
      && (d <= 0.1 ==> third == [BuildText(Initial.(thinking := [x, y, z]))])
      && (d > 0.1 ==> third == [])
  {
    var s2 := Initial.(thinking := [x, y], lastRender := t + d);
    var r3 := Update(s2, Thinking(z), t + 2.1, o3);
    assert Apply(s2, Thinking(z)).0 == s2.(thinking := [x, y, z]);
    if d <= 0.1 {
      assert r3.attempt.text == BuildText(s2.(thinking := [x, y, z]));
      assert BuildText(s2.(thinking := [x, y, z])) == BuildText(Initial.(thinking := [x, y, z]));
    }
  }

  /** As in the source, `final` gets no special treatment: inside the
      throttle window it is not rendered, so unless a later call renders,
      the message keeps showing an earlier state. */
  lemma FinalIsThrottled(s: State, c: string, now: real, outcome: SinkOutcome)
    requires now - s.lastRender < s.interval
    ensures Update(s, Final(c), now, outcome).attempt == Skipped
    ensures FinalText(Update(s, Final(c), now, outcome).state) == c
  {
  }

  /** A tool result does not flush: a thought that arrived before it is
      still pending afterwards, and is logged only at the next `tool_use`,
      `final_stream` or `final`, after the result. */
  lemma PendingSurvivesObservation(s: State, x: string, y: string, t1: real, t2: real, o1: SinkOutcome, o2: SinkOutcome)
    requires s.thinking == [] && x != ""
    ensures var r := Run(s, [Input(Thinking(x), t1, o1), Input(Observation(y), t2, o2)]);
      r.thinking == [x] && r.logs == s.logs + [ToolResult(y)]
  {
    var ins := [Input(Thinking(x), t1, o1), Input(Observation(y), t2, o2)];
    var s1 := Update(s, Thinking(x), t1, o1).state;
    assert s1.thinking == [x] && s1.logs == s.logs;
    assert ins[1..] == [Input(Observation(y), t2, o2)];
    assert Run(s1, ins[1..]) == Run(Update(s1, Observation(y), t2, o2).state, []);
  }
}
