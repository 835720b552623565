/** Assembly of the message text from a buffer state (`_build_text`): one
    line per log entry, the live thinking line, the 2000-character cap on the
    log section, the blockquote around it and the escaped final answer. */
module Render {
  import opened Text
  import opened Html
  import opened Buffer

  /** Line prefixes. The emoji in the source are stored as mis-decoded
      UTF-8 (each byte read as a Windows-1252 character); they are kept here
      code point for code point and are otherwise opaque. */
  const ThoughtOpen := "\U{F0}\U{178}\U{A7}\U{A0} <i>Thought:</i> "
  const ExecOpen := "\U{F0}\U{178}\U{203A}\U{A0} <b>Exec:</b> <code>"
  const ResultOpen := "\U{E2}\U{153}\U{2026} <b>Result:</b> "
  const ThinkingOpen := "\U{F0}\U{178}\U{A7}\U{A0} <i>Thinking...</i> "

  /** Longest tool result shown before it is cut. */
  const ResultLimit := 200
  /** Longest log section kept; older text is dropped from the front. */
  const MaxLogLen := 2000
  const EarlierMarker := "...(earlier logs)...\n"
  /** Sent when there is nothing else to show. */
  const Placeholder := "..."

  /** The tags around the log section. */
  const QuoteOpen := "<blockquote>"
  const QuoteClose := "</blockquote>"

  /** `str(result)[:200] + ("..." if len(str(result)) > 200 else "")`. */
  function Truncate(result: string): string
  {
    result[..if |result| <= ResultLimit then |result| else ResultLimit]
      + (if |result| > ResultLimit then "..." else "")
  }

  /** The raw text an entry shows, before escaping. */
  function Shown(e: Entry): string
  {
    match e
    case Thought(t) => t
    case ToolCall(c) => c
    case ToolResult(x) => Truncate(x)
  }

  function LineOpen(e: Entry): string
  {
    match e
    case Thought(_) => ThoughtOpen
    case ToolCall(_) => ExecOpen
    case ToolResult(_) => ResultOpen
  }

  function LineClose(e: Entry): string
  {
    match e
    case Thought(_) => "\n\n"
    case ToolCall(_) => "</code>\n"
    case ToolResult(_) => "\n\n"
  }

  /** The rendered line of one log entry. */
  function EntryLine(e: Entry): string
  {
    LineOpen(e) + Sanitize(Shown(e)) + LineClose(e)
  }

  /** All entry lines, in log order. */
  function EntriesText(logs: seq<Entry>): string
  {
    if logs == [] then "" else EntriesText(logs[..|logs| - 1]) + EntryLine(logs[|logs| - 1])
  }

  /** The trailing line showing the not yet flushed thought. */
  function LiveLine(thinking: seq<string>): string
  {
    var t := Join(thinking);
    if t != "" then ThinkingOpen + Sanitize(t) + "\n" else ""
  }

  /** The log section before the cap. */
  function LogSection(s: State): string
  {
    EntriesText(s.logs) + LiveLine(s.thinking)
  }

  /** The cap on the log section: at most `MaxLogLen` of its most recent
      characters, behind a marker when anything was dropped. */
  function Cap(log: string): (r: string)
    ensures |log| <= MaxLogLen ==> r == log
    ensures |log| > MaxLogLen ==>
      && |r| == |EarlierMarker| + MaxLogLen
      && r[..|EarlierMarker|] == EarlierMarker
      && r[|EarlierMarker|..] == log[|log| - MaxLogLen..]
    ensures |r| <= |EarlierMarker| + MaxLogLen
  {
    if |log| > MaxLogLen then EarlierMarker + log[|log| - MaxLogLen..] else log
  }

  /** `_build_text`. */
  function BuildText(s: State): string
  {
    var log := Cap(LogSection(s));
    var full := (if log != "" then QuoteOpen + log + QuoteClose + "\n\n" else "")
                + Sanitize(FinalText(s));
    if full == "" then Placeholder else full
  }

  // ---------------------------------------------------------------------
  // Properties

  /** A tool result is cut to its first 200 characters plus `...` exactly
      when it is longer than 200 characters; the cut counts characters of
      the raw result, since escaping happens afterwards, so the shown text
      un-escapes to that prefix whatever entities it contains. */
  lemma ResultCut(x: string)
    ensures |x| > ResultLimit ==> Shown(ToolResult(x)) == x[..ResultLimit] + "..."
    ensures |x| <= ResultLimit ==> Shown(ToolResult(x)) == x
    ensures |Shown(ToolResult(x))| <= ResultLimit + 3
    ensures Unescape(Sanitize(Shown(ToolResult(x)))) == Shown(ToolResult(x))
  {
    UnescapeSanitize(Shown(ToolResult(x)));
  }

  /** Whatever the entry holds, its line adds no markup: the escaped slot
      between the fixed opening and closing has no `<` or `>`, and it
      un-escapes to the text the entry shows. */
  lemma EntryLineSlot(e: Entry)
    ensures var line := EntryLine(e);
      var slot := line[|LineOpen(e)|..|line| - |LineClose(e)|];
      && line[..|LineOpen(e)|] == LineOpen(e)
      && line[|line| - |LineClose(e)|..] == LineClose(e)
      && '<' !in slot && '>' !in slot
      && Unescape(slot) == Shown(e)
  {
    var line := EntryLine(e);
    assert line[|LineOpen(e)|..|line| - |LineClose(e)|] == Sanitize(Shown(e));
    SanitizeNoBrackets(Shown(e));
    UnescapeSanitize(Shown(e));
  }

  /** Every entry line is non-empty. */
  lemma EntryLineNonEmpty(e: Entry)
    ensures |EntryLine(e)| >= |LineClose(e)| >= 2
  {
  }

  /** Appending entries to the log appends their lines to the log text and
      leaves the earlier lines as they were. */
  lemma {:induction false} EntriesAppend(a: seq<Entry>, b: seq<Entry>)
    ensures EntriesText(a + b) == EntriesText(a) + EntriesText(b)
    decreases |b|
  {
    if b == [] {
      assert a + b == a;
    } else {
      var b' := b[..|b| - 1];
      assert (a + b)[..|a + b| - 1] == a + b';
      EntriesAppend(a, b');
    }
  }

  /** The entries text is empty exactly when there are no entries. */
  lemma EntriesEmpty(logs: seq<Entry>)
    ensures EntriesText(logs) == "" <==> logs == []
  {
    if logs != [] {
      EntryLineNonEmpty(logs[|logs| - 1]);
    }
  }

  /** The live thinking line appears exactly when the pending thought is
      non-empty, and it shows that thought, concatenated and escaped. */
  lemma LiveLineShown(thinking: seq<string>)
    ensures LiveLine(thinking) != "" <==> Join(thinking) != ""
    ensures Join(thinking) != "" ==>
      var line := LiveLine(thinking);
      && line[..|ThinkingOpen|] == ThinkingOpen
      && line[|line| - 1] == '\n'
      && Unescape(line[|ThinkingOpen|..|line| - 1]) == Join(thinking)
  {
    var t := Join(thinking);
    if t != "" {
      var line := LiveLine(thinking);
      assert line[|ThinkingOpen|..|line| - 1] == Sanitize(t);
      UnescapeSanitize(t);
    }
  }

  /** The log section is empty exactly when nothing is logged and nothing is
      pending. */
  lemma LogSectionEmpty(s: State)
    ensures LogSection(s) == "" <==> s.logs == [] && PendingText(s) == ""
  {
    EntriesEmpty(s.logs);
    LiveLineShown(s.thinking);
  }

  /** The message is never empty; it is the placeholder exactly when there
      is no log section and the final answer is empty or is itself `...`. */
  lemma BuildTextPlaceholder(s: State)
    ensures BuildText(s) != ""
    ensures BuildText(s) == Placeholder <==>
      s.logs == [] && PendingText(s) == "" && (FinalText(s) == "" || FinalText(s) == Placeholder)
  {
    LogSectionEmpty(s);
    SanitizeEmpty(FinalText(s));
    var log := Cap(LogSection(s));
    if log != "" {
      assert BuildText(s)[0] == '<';
    } else if FinalText(s) != "" {
      UnescapeSanitize(FinalText(s));
      UnescapeSanitize(Placeholder);
      SanitizeEmpty(Placeholder);
    }
  }

  /** The message ends with the escaped final answer, which un-escapes to the
      concatenated final-answer fragments; the final answer is never cut. */
  lemma BuildTextEndsWithFinal(s: State)
    ensures var r := BuildText(s);
      var f := Sanitize(FinalText(s));
      && |f| <= |r|
      && r[|r| - |f|..] == f
      && Unescape(f) == FinalText(s)
  {
    UnescapeSanitize(FinalText(s));
  }

  /** The cap drops old text from the front only: whenever the live
      thinking line fits in `MaxLogLen` characters it survives the cap whole,
      as the last thing in the kept section, however long the log before it
      is. */
  lemma LiveLineSurvivesCap(s: State)
    ensures var live := LiveLine(s.thinking);
      var kept := Cap(LogSection(s));
      |live| <= MaxLogLen ==> |live| <= |kept| && kept[|kept| - |live|..] == live
  {
    var live := LiveLine(s.thinking);
    var log := LogSection(s);
    if |live| <= MaxLogLen {
      assert log == EntriesText(s.logs) + live;
      CapKeepsSuffix(log, live);
    }
  }

  /** In the message, a pending thought whose line fits in `MaxLogLen`
      characters is shown whole, right before the closing `</blockquote>`. */
  lemma LiveLineBeforeClose(s: State)
    ensures var live := LiveLine(s.thinking);
      var r := BuildText(s);
      var close := |QuoteOpen| + |Cap(LogSection(s))|;
      live != "" && |live| <= MaxLogLen ==>
        && close + |QuoteClose| <= |r|
        && r[close - |live|..close] == live
        && r[close..close + |QuoteClose|] == QuoteClose
  {
    var live := LiveLine(s.thinking);
    var kept := Cap(LogSection(s));
    if live != "" && |live| <= MaxLogLen {
      LiveLineSurvivesCap(s);
      BlockquoteLayout(s);
      Enclosed(QuoteOpen, kept, QuoteClose, "\n\n" + Sanitize(FinalText(s)), live);
    }
  }

  /** A tail of `kept` sits right before `close` in `open + kept + close + rest`. */
  lemma Enclosed(open: string, kept: string, close: string, rest: string, tail: string)
    requires |tail| <= |kept| && kept[|kept| - |tail|..] == tail
    ensures var r := open + kept + close + rest;
      var k := |open| + |kept|;
      && k + |close| <= |r|
      && r[k - |tail|..k] == tail
      && r[k..k + |close|] == close
  {
    var r := open + kept + close + rest;
    var k := |open| + |kept|;
    assert r[k - |tail|..k] == kept[|kept| - |tail|..];
  }

  /** A tail of at most `MaxLogLen` characters survives the cap, last. */
  lemma CapKeepsSuffix(log: string, tail: string)
    requires |tail| <= MaxLogLen && |tail| <= |log| && log[|log| - |tail|..] == tail
    ensures |tail| <= |Cap(log)| && Cap(log)[|Cap(log)| - |tail|..] == tail
  {
    if |log| > MaxLogLen {
      var kept := Cap(log);
      assert kept[|kept| - |tail|..] == log[|log| - MaxLogLen..][MaxLogLen - |tail|..];
    }
  }

  /** A non-empty kept log section is wrapped in the blockquote. */
  lemma BlockquoteLayout(s: State)
    requires Cap(LogSection(s)) != ""
    ensures BuildText(s) == QuoteOpen + Cap(LogSection(s)) + QuoteClose + ("\n\n" + Sanitize(FinalText(s)))
  {
  }
}
