/**
 * The `generate-stream` handler of the main process (main.js): the reply
 * of the Ollama server arrives in chunks of newline-delimited JSON; every
 * complete line is parsed and turned into events for the window, and the
 * text after the last newline is kept until more arrives and parsed once
 * the stream is over.
 *
 * The chunks are the decoded text of what the server sent, and `parse`
 * stands for `JSON.parse` (`None` where it throws). The request id that
 * every event carries is left out.
 */
module Stream {
  import opened Common
  import opened Text

  /** The five numbers `stream-end` reports from a `done` line. */
  datatype StreamStats = StreamStats(
    evalCount: JsValue,
    promptEvalCount: JsValue,
    evalDuration: JsValue,
    totalDuration: JsValue,
    loadDuration: JsValue)

  datatype StreamEvent =
    | StreamResponse(chunk: JsValue)
    | StreamEnd(stats: Option<StreamStats>)
    | StreamError(error: string)

  // ---------------------------------------------------------------------
  // Lines of the received text
  // ---------------------------------------------------------------------

  /** `s.indexOf('\n')`: the first newline of a text, or -1 when it has none. */
  function IndexOfNewline(s: string): (i: int)
    ensures -1 <= i < |s|
    ensures i >= 0 ==> s[i] == '\n'
    ensures forall k :: 0 <= k < |s| && (i < 0 || k < i) ==> s[k] != '\n'
  {
    if s == [] then -1
    else if s[0] == '\n' then 0
    else
      var j := IndexOfNewline(s[1..]);
      if j < 0 then -1 else 1 + j
  }

  /** The complete lines of a text: every piece that a newline ends, without the newline. */
  function Lines(s: string): seq<string>
    decreases |s|
  {
    var i := IndexOfNewline(s);
    if i < 0 then [] else [s[..i]] + Lines(s[i + 1..])
  }

  /** What follows the last newline of a text (all of it when it has none). */
  function Rest(s: string): string
    decreases |s|
  {
    var i := IndexOfNewline(s);
    if i < 0 then s else Rest(s[i + 1..])
  }

  /** A text is its complete lines, each followed by a newline, and then the rest. */
  lemma {:induction false} LinesAndRest(s: string)
    ensures s == JoinTerminated(Lines(s)) + Rest(s)
    decreases |s|
  {
    var i := IndexOfNewline(s);
    if i >= 0 {
      var line, tail := s[..i], s[i + 1..];
      LinesAndRest(tail);
      FirstLine(s, i);
      SplitAtNewline(s, i);
      AppendAssoc(line + "\n", JoinTerminated(Lines(tail)), Rest(tail));
    }
  }

  /** Taking the first line off a text with a newline. */
  lemma FirstLine(s: string, i: int)
    requires 0 <= i && i == IndexOfNewline(s)
    ensures JoinTerminated(Lines(s)) == s[..i] + "\n" + JoinTerminated(Lines(s[i + 1..]))
    ensures Rest(s) == Rest(s[i + 1..])
  {
    LinesCons(s, i);
    JoinTerminatedCons(s[..i], Lines(s[i + 1..]));
  }

  lemma SplitAtNewline(s: string, i: int)
    requires 0 <= i < |s| && s[i] == '\n'
    ensures s == s[..i] + "\n" + s[i + 1..]
  {
    assert s == s[..i] + [s[i]] + s[i + 1..];
  }

  lemma JoinTerminatedCons(line: string, lines: seq<string>)
    ensures JoinTerminated([line] + lines) == line + "\n" + JoinTerminated(lines)
  {
    var all := [line] + lines;
    assert all[0] == line && all[1..] == lines;
  }

  /** Each line followed by a newline, all put together. */
  function JoinTerminated(lines: seq<string>): string
  {
    if lines == [] then "" else lines[0] + "\n" + JoinTerminated(lines[1..])
  }

  /**
   * Appending text to a buffer: the complete lines of the whole are those
   * of the buffer followed by those of its rest with the new text, and the
   * rest of the whole is the rest of that.
   */
  lemma {:induction false} LinesAppend(s: string, t: string)
    ensures Lines(s + t) == Lines(s) + Lines(Rest(s) + t)
    ensures Rest(s + t) == Rest(Rest(s) + t)
    decreases |s|
  {
    var i := IndexOfNewline(s);
    if i >= 0 {
      var line, tail := s[..i], s[i + 1..];
      IndexOfNewlineAppend(s, t);
      var st := s + t;
      assert st[i + 1..] == tail + t && st[..i] == line;
      LinesCons(s, i);
      LinesCons(st, i);
      LinesAppend(tail, t);
      AppendAssoc([line], Lines(tail), Lines(Rest(tail) + t));
    }
  }

  /** A text with a newline: its first line, then the lines and the rest after that newline. */
  lemma LinesCons(s: string, i: int)
    requires 0 <= i && i == IndexOfNewline(s)
    ensures Lines(s) == [s[..i]] + Lines(s[i + 1..])
    ensures Rest(s) == Rest(s[i + 1..])
  {
  }

  /** A newline of the first text is the first newline of both together. */
  lemma IndexOfNewlineAppend(s: string, t: string)
    requires IndexOfNewline(s) >= 0
    ensures IndexOfNewline(s + t) == IndexOfNewline(s)
  {
    var i := IndexOfNewline(s);
    var st := s + t;
    assert st[i] == '\n';
    assert forall k :: 0 <= k < i ==> st[k] == s[k];
  }

  // ---------------------------------------------------------------------
  // Events of one line
  // ---------------------------------------------------------------------

  /** The statistics of a `done` line. */
  function StatsOf(json: JsValue): StreamStats
  {
    StreamStats(Get(json, "eval_count"), Get(json, "prompt_eval_count"), Get(json, "eval_duration"),
      Get(json, "total_duration"), Get(json, "load_duration"))
  }

  /** `json?.done`, for a line that parses. */
  predicate IsDone(line: string, parse: string -> Option<JsValue>)
  {
    line != "" && parse(line).Some? && Truthy(Get(parse(line).value, "done"))
  }

  /**
   * The events of one trimmed line: nothing for an empty line or one that
   * does not parse; otherwise a `stream-response` with the message content
   * when it has one, then a `stream-end` with the statistics when the
   * line says it is done.
   */
  function LineEvents(line: string, parse: string -> Option<JsValue>): (r: seq<StreamEvent>)
    ensures |r| <= 2
  {
    if line == "" then []
    else match parse(line)
      case None => []
      case Some(json) =>
        var content := Get(Get(json, "message"), "content");
        (if Truthy(content) then [StreamResponse(content)] else []) +
        (if Truthy(Get(json, "done")) then [StreamEnd(Some(StatsOf(json)))] else [])
  }

  /** Every line trimmed, as the handler does before parsing it. */
  function Trimmed(lines: seq<string>): seq<string>
  {
    if lines == [] then [] else [Trim(lines[0])] + Trimmed(lines[1..])
  }

  lemma {:induction false} TrimmedAppend(a: seq<string>, b: seq<string>)
    ensures Trimmed(a + b) == Trimmed(a) + Trimmed(b)
  {
    if a == [] {
      assert a + b == b;
    } else {
      var ab := a + b;
      assert ab[0] == a[0] && ab[1..] == a[1..] + b;
      TrimmedAppend(a[1..], b);
      AppendAssoc([Trim(a[0])], Trimmed(a[1..]), Trimmed(b));
    }
  }

  /** The events of trimmed lines, in order. */
  function EventsOf(lines: seq<string>, parse: string -> Option<JsValue>): seq<StreamEvent>
  {
    if lines == [] then [] else LineEvents(lines[0], parse) + EventsOf(lines[1..], parse)
  }

  /** The number of `done` lines among these trimmed lines. */
  function DoneLines(lines: seq<string>, parse: string -> Option<JsValue>): nat
  {
    if lines == [] then 0 else (if IsDone(lines[0], parse) then 1 else 0) + DoneLines(lines[1..], parse)
  }

  /** The number of `stream-end` events. */
  function CountEnds(events: seq<StreamEvent>): nat
  {
    if events == [] then 0 else (if events[0].StreamEnd? then 1 else 0) + CountEnds(events[1..])
  }

  lemma {:induction false} CountEndsAppend(a: seq<StreamEvent>, b: seq<StreamEvent>)
    ensures CountEnds(a + b) == CountEnds(a) + CountEnds(b)
  {
    if a == [] {
      assert a + b == b;
    } else {
      var ab := a + b;
      assert ab[0] == a[0] && ab[1..] == a[1..] + b;
      CountEndsAppend(a[1..], b);
    }
  }

  /** The events of two runs of lines are those of the first, then those of the second. */
  lemma {:induction false} EventsAppend(a: seq<string>, b: seq<string>, parse: string -> Option<JsValue>)
    ensures EventsOf(a + b, parse) == EventsOf(a, parse) + EventsOf(b, parse)
    ensures DoneLines(a + b, parse) == DoneLines(a, parse) + DoneLines(b, parse)
  {
    if a == [] {
      assert a + b == b;
    } else {
      var ab := a + b;
      assert ab[0] == a[0] && ab[1..] == a[1..] + b;
      EventsAppend(a[1..], b, parse);
    }
  }

  /** A line sends one `stream-end` when it is a `done` line and none otherwise. */
  lemma LineEnds(line: string, parse: string -> Option<JsValue>)
    ensures CountEnds(LineEvents(line, parse)) == if IsDone(line, parse) then 1 else 0
  {
    if line != "" && parse(line).Some? {
      var json := parse(line).value;
      var content := Get(Get(json, "message"), "content");
      var a: seq<StreamEvent> := if Truthy(content) then [StreamResponse(content)] else [];
      var b: seq<StreamEvent> := if Truthy(Get(json, "done")) then [StreamEnd(Some(StatsOf(json)))] else [];
      CountEndsAppend(a, b);
      assert CountEnds(a) == 0 by {
        if a != [] {
          assert a[1..] == [];
        }
      }
      assert b != [] ==> b[1..] == [];
    }
  }

  /** Every `done` line among the complete lines sends exactly one `stream-end`. */
  lemma {:induction false} EndsOfLines(lines: seq<string>, parse: string -> Option<JsValue>)
    ensures CountEnds(EventsOf(lines, parse)) == DoneLines(lines, parse)
  {
    if lines != [] {
      EndsOfLines(lines[1..], parse);
      LineEnds(lines[0], parse);
      CountEndsAppend(LineEvents(lines[0], parse), EventsOf(lines[1..], parse));
    }
  }

  /** The events of a single line. */
  lemma Single(line: string, parse: string -> Option<JsValue>)
    ensures EventsOf([line], parse) == LineEvents(line, parse)
    ensures DoneLines([line], parse) == if IsDone(line, parse) then 1 else 0
  {
    var single := [line];
    assert single[1..] == [];
  }

  // ---------------------------------------------------------------------
  // The whole stream
  // ---------------------------------------------------------------------

  /** The trimmed complete lines of a text. */
  function CompleteLines(text: string): seq<string>
  {
    Trimmed(Lines(text))
  }

  /** The trimmed text after the last newline. */
  function FinalLine(text: string): string
  {
    Trim(Rest(text))
  }

  /**
   * The events of the stream handler as main.js writes them: the events of
   * the complete lines, then those of the final line, and a bare
   * `stream-end` unless a complete line was a `done` line. A `done` final
   * line sends its own `stream-end` but does not count as one.
   */
  function StreamEventsAsWritten(text: string, parse: string -> Option<JsValue>): seq<StreamEvent>
  {
    EventsOf(CompleteLines(text), parse) + LineEvents(FinalLine(text), parse) +
    (if DoneLines(CompleteLines(text), parse) > 0 then [] else [StreamEnd(None)])
  }

  /**
   * The events of the stream handler when the final line counts like any
   * other: a bare `stream-end` is sent only when no line at all, the final
   * one included, was a `done` line.
   */
  function StreamEvents(text: string, parse: string -> Option<JsValue>): seq<StreamEvent>
  {
    EventsOf(CompleteLines(text), parse) + LineEvents(FinalLine(text), parse) +
    (if DoneLines(CompleteLines(text) + [FinalLine(text)], parse) > 0 then [] else [StreamEnd(None)])
  }

  /**
   * With the final line counted, the window sees exactly one `stream-end`
   * per `done` line, and exactly one when no line is a `done` line.
   */
  lemma OneEndPerDoneLine(text: string, parse: string -> Option<JsValue>)
    ensures var done := DoneLines(CompleteLines(text) + [FinalLine(text)], parse);
      CountEnds(StreamEvents(text, parse)) == if done == 0 then 1 else done
  {
    var lines, last := CompleteLines(text), FinalLine(text);
    var a, b := EventsOf(lines, parse), LineEvents(last, parse);
    var done := DoneLines(lines + [last], parse);
    var c: seq<StreamEvent> := if done > 0 then [] else [StreamEnd(None)];
    EndsOfLines(lines, parse);
    EventsAppend(lines, [last], parse);
    Single(last, parse);
    LineEnds(last, parse);
    CountEndsAppend(a, b);
    CountEndsAppend(a + b, c);
    assert c != [] ==> c[1..] == [];
  }

  /** As written and as intended agree unless the final line is a `done` line. */
  lemma AsWrittenAgreesUnlessFinalLineDone(text: string, parse: string -> Option<JsValue>)
    requires !IsDone(FinalLine(text), parse)
    ensures StreamEventsAsWritten(text, parse) == StreamEvents(text, parse)
  {
    EventsAppend(CompleteLines(text), [FinalLine(text)], parse);
    Single(FinalLine(text), parse);
  }

  /**
   * The stream handler as written sends two `stream-end` events for a reply
   * whose only line is a `done` line without a final newline: one with the
   * statistics for the line, then the bare one, because only a complete
   * line marks the statistics as sent. Counted as intended, it sends one.
   */
  lemma FinalDoneLineEndsTwice(text: string, parse: string -> Option<JsValue>)
    requires IndexOfNewline(text) == -1 && IsDone(Trim(text), parse)
    ensures DoneLines(CompleteLines(text) + [FinalLine(text)], parse) == 1
    ensures CountEnds(StreamEventsAsWritten(text, parse)) == 2
    ensures CountEnds(StreamEvents(text, parse)) == 1
  {
    var last := FinalLine(text);
    assert CompleteLines(text) == [] && last == Trim(text);
    var ends := LineEvents(last, parse);
    LineEnds(last, parse);
    Single(last, parse);
    assert [] + [last] == [last];
    assert StreamEventsAsWritten(text, parse) == [] + ends + [StreamEnd(None)];
    assert [] + ends == ends;
    CountEndsAppend(ends, [StreamEnd(None)]);
    assert [StreamEnd(None)][1..] == [];
    OneEndPerDoneLine(text, parse);
  }

  /** A parser that reads the line `D` as `{"done": true}` and nothing else. */
  function DoneParser(line: string): Option<JsValue>
  {
    if line == "D" then Some(Obj(map["done" := Bool(true)])) else None
  }

  /** The reply `D`, read with that parser, is such a reply. */
  lemma DoneReplyWithoutNewline()
    ensures IndexOfNewline("D") == -1 && IsDone(Trim("D"), DoneParser)
  {
    var text: string := "D";
    assert Trim(text) == text by {
      assert !IsSpace(text[0]);
      assert TrimStart(text) == text;
    }
  }

  /**
   * The `generate-stream` handler, with the final line counted like any
   * other: this is the corrected handler, which differs from main.js only
   * when the text after the last newline is a `done` line (then main.js
   * sends a second, bare `stream-end`). An empty or non-string `userText` is refused at once with an
   * `EMPTY_INPUT` error followed by a bare `stream-end`. Otherwise each
   * chunk is appended to the buffer, every complete line in the buffer is
   * taken off, trimmed and turned into events, and once the chunks are
   * over the trimmed rest of the buffer is handled the same way.
   */
  method HandleStream(userText: JsValue, chunks: seq<string>, parse: string -> Option<JsValue>)
    returns (events: seq<StreamEvent>)
    ensures !(userText.Str? && userText.s != "") ==> events == [StreamError("EMPTY_INPUT"), StreamEnd(None)]
    ensures userText.Str? && userText.s != "" ==> events == StreamEvents(ConcatChunks(chunks), parse)
    ensures (userText.Str? && userText.s != "" && !IsDone(FinalLine(ConcatChunks(chunks)), parse)) ==>
      events == StreamEventsAsWritten(ConcatChunks(chunks), parse)
  {
    if !userText.Str? || userText.s == "" {
      return [StreamError("EMPTY_INPUT"), StreamEnd(None)];
    }
    var buffer := "";
    var sentEnd := false;
    events := [];
    var k := 0;
    while k < |chunks|
      invariant 0 <= k <= |chunks|
      invariant buffer == Rest(ConcatChunks(chunks[..k]))
      invariant events == EventsOf(CompleteLines(ConcatChunks(chunks[..k])), parse)
      invariant sentEnd <==> DoneLines(CompleteLines(ConcatChunks(chunks[..k])), parse) > 0
    {
      ReceiveChunk(chunks, k, parse);
      events, buffer, sentEnd := TakeLines(events, buffer + chunks[k], sentEnd, parse);
      k := k + 1;
    }
    assert chunks[..k] == chunks;
    ghost var text := ConcatChunks(chunks);
    assert buffer == Rest(text) && events == EventsOf(CompleteLines(text), parse);
    var tail := Trim(buffer);
    assert tail == FinalLine(text);
    var tailEvents := HandleLine(tail, parse);
    events := events + tailEvents;
    if IsDone(tail, parse) {
      sentEnd := true;
    }
    EventsAppend(CompleteLines(text), [FinalLine(text)], parse);
    Single(FinalLine(text), parse);
    assert sentEnd <==> DoneLines(CompleteLines(text) + [FinalLine(text)], parse) > 0;
    ghost var body := EventsOf(CompleteLines(text), parse) + LineEvents(FinalLine(text), parse);
    assert events == body;
    if !sentEnd {
      events := events + [StreamEnd(None)];
      assert StreamEvents(text, parse) == body + [StreamEnd(None)];
    } else {
      assert StreamEvents(text, parse) == body + [];
      assert body + [] == body;
    }
    if !IsDone(FinalLine(text), parse) {
      AsWrittenAgreesUnlessFinalLineDone(text, parse);
    }
  }

  /** What one more chunk adds: the complete lines of the rest of the buffer followed by the chunk. */
  lemma ReceiveChunk(chunks: seq<string>, k: nat, parse: string -> Option<JsValue>)
    requires k < |chunks|
    ensures var before, after := ConcatChunks(chunks[..k]), ConcatChunks(chunks[..k + 1]);
      var added := CompleteLines(Rest(before) + chunks[k]);
      Rest(after) == Rest(Rest(before) + chunks[k]) &&
      EventsOf(CompleteLines(after), parse) == EventsOf(CompleteLines(before), parse) + EventsOf(added, parse) &&
      DoneLines(CompleteLines(after), parse) == DoneLines(CompleteLines(before), parse) + DoneLines(added, parse)
  {
    var before := ConcatChunks(chunks[..k]);
    ConcatChunksStep(chunks, k);
    LinesAppend(before, chunks[k]);
    TrimmedAppend(Lines(before), Lines(Rest(before) + chunks[k]));
    EventsAppend(CompleteLines(before), CompleteLines(Rest(before) + chunks[k]), parse);
  }

  /** The chunks put together. */
  function ConcatChunks(chunks: seq<string>): string
  {
    if chunks == [] then "" else ConcatChunks(chunks[..|chunks| - 1]) + chunks[|chunks| - 1]
  }

  lemma ConcatChunksStep(chunks: seq<string>, k: nat)
    requires k < |chunks|
    ensures ConcatChunks(chunks[..k + 1]) == ConcatChunks(chunks[..k]) + chunks[k]
  {
    assert chunks[..k + 1][..k] == chunks[..k];
  }

  /**
   * The inner loop of the handler: while the buffer holds a newline, the
   * line before it is taken off, trimmed and turned into events; a `done`
   * line marks the statistics as sent.
   */
  method TakeLines(events: seq<StreamEvent>, buffer: string, sentEnd: bool, parse: string -> Option<JsValue>)
    returns (events': seq<StreamEvent>, buffer': string, sentEnd': bool)
    ensures events' == events + EventsOf(CompleteLines(buffer), parse)
    ensures buffer' == Rest(buffer)
    ensures sentEnd' <==> sentEnd || DoneLines(CompleteLines(buffer), parse) > 0
  {
    events', buffer', sentEnd' := events, buffer, sentEnd;
    ghost var taken: seq<string> := [];
    assert events + EventsOf(taken, parse) == events;
    assert taken + CompleteLines(buffer') == CompleteLines(buffer');
    while IndexOfNewline(buffer') >= 0
      invariant CompleteLines(buffer) == taken + CompleteLines(buffer')
      invariant Rest(buffer) == Rest(buffer')
      invariant events' == events + EventsOf(taken, parse)
      invariant sentEnd' <==> sentEnd || DoneLines(taken, parse) > 0
      decreases |buffer'|
    {
      var idx := IndexOfNewline(buffer');
      var line := Trim(buffer'[..idx]);
      TakeOneLine(buffer', idx);
      EventsAppend(taken, [line], parse);
      Single(line, parse);
      var lineEvents := HandleLine(line, parse);
      AppendAssoc(events, EventsOf(taken, parse), lineEvents);
      AppendAssoc(taken, [line], CompleteLines(buffer'[idx + 1..]));
      events' := events' + lineEvents;
      taken := taken + [line];
      buffer' := buffer'[idx + 1..];
      if IsDone(line, parse) {
        sentEnd' := true;
      }
    }
    assert taken + CompleteLines(buffer') == taken;
  }

  /** Regrouping a concatenation; called where the solver does not regroup by itself. */
  lemma AppendAssoc<T>(a: seq<T>, b: seq<T>, c: seq<T>)
    ensures (a + b) + c == a + (b + c)
  {
  }

  /** Taking the first complete line off a buffer. */
  lemma TakeOneLine(left: string, i: int)
    requires 0 <= i && i == IndexOfNewline(left)
    ensures CompleteLines(left) == [Trim(left[..i])] + CompleteLines(left[i + 1..])
    ensures Rest(left) == Rest(left[i + 1..])
  {
    var line, rest := left[..i], left[i + 1..];
    LinesCons(left, i);
    assert Trimmed(Lines(left)) == [Trim(line)] + Trimmed(Lines(rest)) by {
      var ls := Lines(left);
      assert ls[0] == line && ls[1..] == Lines(rest);
    }
  }

  /** The events one line sends: the message content, and `stream-end` with the statistics for a `done` line. */
  method HandleLine(line: string, parse: string -> Option<JsValue>) returns (sent: seq<StreamEvent>)
    ensures sent == LineEvents(line, parse)
  {
    sent := [];
    if line == "" {
      return;
    }
    var json := parse(line);
    if json.None? {
      return;
    }
    var content := Get(Get(json.value, "message"), "content");
    if Truthy(content) {
      sent := sent + [StreamResponse(content)];
    }
    if Truthy(Get(json.value, "done")) {
      sent := sent + [StreamEnd(Some(StatsOf(json.value)))];
    }
  }
}
