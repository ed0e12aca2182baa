/** The frame decoder of the streaming client (`streamDebate` in
    frontend/app/lib/api.ts): a buffered line splitter over decoded text
    chunks that recognises `data: ` lines and hands their payloads to the
    JSON parser. It is the text/event-stream framing of the WHATWG HTML
    standard, section 9.2 "Server-sent events", simplified to one
    `data: ` line per event and LF-only line ends. */
module Sse {
  import opened Events
  import opened Text

  /** `JSON.parse(payload) as SSEEvent`: `None` stands for a thrown parse error.
      The parser is a parameter of the model, not a definition of it. */
  type Parser = string -> Option<Event>

  const DataPrefix: string := "data: "

  /** The lines of `text` that a '\n' has terminated, in order. */
  function CompleteLines(text: string): (lines: seq<string>)
    ensures forall i :: 0 <= i < |lines| ==> '\n' !in lines[i]
    ensures Join(lines + [Pending(text)], '\n') == text
  {
    var pieces := Split(text, '\n');
    SplitPieces(text, '\n');
    SplitJoin(text, '\n');
    assert Init(pieces) + [Last(pieces)] == pieces;
    Init(pieces)
  }

  /** What the decoder keeps for the next chunk: the last piece of the split. */
  function Pending(text: string): string {
    Last(Split(text, '\n'))
  }

  predicate IsDataLine(line: string) {
    StartsWith(line, DataPrefix)
  }

  /** The payload of a data line: the line without its first six characters. */
  function Payload(line: string): (p: string)
    requires IsDataLine(line)
    ensures line == DataPrefix + p
  {
    line[|DataPrefix|..]
  }

  /** What one line contributes: an event when it is a data line whose payload parses. */
  function LineEvent(parse: Parser, line: string): (r: seq<Event>)
    ensures |r| <= 1
    ensures r != [] <==> IsDataLine(line) && parse(Payload(line)).Some?
    ensures r != [] ==> parse(Payload(line)) == Some(r[0])
  {
    if IsDataLine(line) then
      match parse(Payload(line))
      case Some(e) => [e]
      case None => []
    else []
  }

  /** A data line whose payload fails to parse: dropped and logged. */
  predicate IsMalformed(parse: Parser, line: string) {
    IsDataLine(line) && parse(Payload(line)).None?
  }

  /** The events of `lines`, each line examined once, in order. */
  function LineEvents(parse: Parser, lines: seq<string>): (r: seq<Event>)
    ensures |r| <= |lines|
    ensures lines == [] ==> r == []
    decreases |lines|
  {
    if lines == [] then []
    else LineEvents(parse, lines[..|lines| - 1]) + LineEvent(parse, lines[|lines| - 1])
  }

  /** The lines logged as unparseable, in order. */
  function Malformed(parse: Parser, lines: seq<string>): (r: seq<string>)
    ensures |r| <= |lines|
    ensures forall i :: 0 <= i < |r| ==> IsMalformed(parse, r[i]) && r[i] in lines
    decreases |lines|
  {
    if lines == [] then []
    else
      var last := lines[|lines| - 1];
      Malformed(parse, lines[..|lines| - 1]) + (if IsMalformed(parse, last) then [last] else [])
  }

  /** The data lines among `lines`, in order. */
  function DataLines(lines: seq<string>): seq<string>
    decreases |lines|
  {
    if lines == [] then []
    else
      var last := lines[|lines| - 1];
      DataLines(lines[..|lines| - 1]) + (if IsDataLine(last) then [last] else [])
  }

  lemma {:induction false} LineEventsAppend(parse: Parser, a: seq<string>, b: seq<string>)
    ensures LineEvents(parse, a + b) == LineEvents(parse, a) + LineEvents(parse, b)
    decreases |b|
  {
    if b == [] {
      assert a + b == a;
    } else {
      assert (a + b)[..|a + b| - 1] == a + b[..|b| - 1];
      LineEventsAppend(parse, a, b[..|b| - 1]);
    }
  }

  /** Only data lines produce events: blank lines and other lines contribute nothing. */
  lemma {:induction false} OnlyDataLinesCount(parse: Parser, lines: seq<string>)
    ensures LineEvents(parse, lines) == LineEvents(parse, DataLines(lines))
    decreases |lines|
  {
    if lines != [] {
      var init, last := lines[..|lines| - 1], lines[|lines| - 1];
      OnlyDataLinesCount(parse, init);
      if IsDataLine(last) {
        LineEventsAppend(parse, DataLines(init), [last]);
        assert [last][..0] == [];
      } else {
        assert LineEvent(parse, last) == [];
        calc {
          LineEvents(parse, lines);
          LineEvents(parse, init) + [];
          LineEvents(parse, DataLines(init));
          { assert DataLines(lines) == DataLines(init) + [] == DataLines(init); }
          LineEvents(parse, DataLines(lines));
        }
      }
    }
  }

  /** A payload that fails to parse is logged and does not stop the lines after it:
      every data line yields either one event or one log entry. */
  lemma {:induction false} EveryDataLineAccounted(parse: Parser, lines: seq<string>)
    ensures |LineEvents(parse, lines)| + |Malformed(parse, lines)| == |DataLines(lines)|
    decreases |lines|
  {
    if lines != [] {
      EveryDataLineAccounted(parse, lines[..|lines| - 1]);
    }
  }

  /** The retained buffer is exactly the text after the last '\n'. */
  lemma {:induction false} PendingIsTextAfterLastNewline(text: string)
    ensures '\n' !in Pending(text)
    ensures EndsWith(text, Pending(text))
    ensures |Pending(text)| < |text| ==> text[|text| - |Pending(text)| - 1] == '\n'
    ensures |Split(text, '\n')| > 1 ==> |Pending(text)| < |text|
    decreases |text|
  {
    SplitPieces(text, '\n');
    if text != [] {
      var rest := text[1..];
      var p := Pending(text);
      SplitCons(text, '\n');
      PendingIsTextAfterLastNewline(rest);
      var rs := Split(rest, '\n');
      if text[0] == '\n' {
        assert p == Pending(rest);
      } else if |rs| == 1 {
        SplitPieces(rest, '\n');
        SplitJoin(rest, '\n');
        assert p == [text[0]] + rest == text;
      } else {
        assert p == Pending(rest);
      }
    }
  }

  /** Feeding a chunk after a text splits the combined text the same way as feeding
      it after the text's pending tail: the complete lines add up and the new
      pending tail is the same. */
  lemma FeedStep(text: string, chunk: string)
    ensures CompleteLines(text + chunk) == CompleteLines(text) + CompleteLines(Pending(text) + chunk)
    ensures Pending(text + chunk) == Pending(Pending(text) + chunk)
  {
    var ts, cs := Split(text, '\n'), Split(chunk, '\n');
    SplitAppend(text, chunk, '\n');
    SplitAppend(Pending(text), chunk, '\n');
    PendingIsTextAfterLastNewline(text);
    SplitPieces(Pending(text), '\n');
    assert Split(Pending(text), '\n') == [Last(ts)];
    assert Split(Pending(text) + chunk, '\n') == [Last(ts) + cs[0]] + cs[1..];
    assert Split(text + chunk, '\n') == Init(ts) + ([Last(ts) + cs[0]] + cs[1..]);
  }

  /** The decoder of one stream: the pending buffer and the parser. */
  class LineDecoder {
    const parse: Parser
    var buffer: string

    constructor (parse: Parser)
      ensures this.parse == parse && buffer == ""
    {
      this.parse := parse;
      buffer := "";
    }

    /** One chunk: append it to the buffer, split on '\n', keep the last piece and
        hand every complete line, in order, to the parser. */
    method Feed(chunk: string) returns (events: seq<Event>, malformed: seq<string>)
      modifies this
      ensures buffer == Pending(old(buffer) + chunk) && '\n' !in buffer
      ensures events == LineEvents(parse, CompleteLines(old(buffer) + chunk))
      ensures malformed == Malformed(parse, CompleteLines(old(buffer) + chunk))
    {
      var lines := Split(buffer + chunk, '\n');
      PendingIsTextAfterLastNewline(buffer + chunk);
      buffer := lines[|lines| - 1];
      lines := lines[..|lines| - 1];
      events, malformed := [], [];
      for i := 0 to |lines|
        invariant events == LineEvents(parse, lines[..i])
        invariant malformed == Malformed(parse, lines[..i])
      {
        var line := lines[i];
        assert lines[..i + 1][..i] == lines[..i];
        assert LineEvents(parse, lines[..i + 1]) == events + LineEvent(parse, line);
        assert Malformed(parse, lines[..i + 1]) == malformed + (if IsMalformed(parse, line) then [line] else []);
        if StartsWith(line, DataPrefix) {
          match parse(line[|DataPrefix|..]) {
            case Some(e) => events := events + [e];
            case None => malformed := malformed + [line];
          }
        }
      }
      assert lines[..|lines|] == lines;
    }

    /** End of stream: the leftover buffer yields at most one event, and only when it
        is a data line whose payload parses; a failed parse is ignored silently. */
    method Finish() returns (events: seq<Event>)
      ensures |events| <= 1
      ensures events != [] <==> IsDataLine(buffer) && parse(Payload(buffer)).Some?
      ensures events != [] ==> parse(Payload(buffer)) == Some(events[0])
    {
      events := [];
      if StartsWith(buffer, DataPrefix) {
        match parse(buffer[|DataPrefix|..]) {
          case Some(e) => events := [e];
          case None =>
        }
      }
    }
  }

  /** The whole text the transport delivered. */
  function Concat(chunks: seq<string>): (text: string)
    ensures text == "" <==> forall i :: 0 <= i < |chunks| ==> chunks[i] == ""
    ensures chunks != [] ==> StartsWith(text, chunks[0]) && EndsWith(text, chunks[|chunks| - 1])
    decreases |chunks|
  {
    if chunks == [] then "" else Concat(chunks[..|chunks| - 1]) + chunks[|chunks| - 1]
  }

  /** The decoder's buffer after the chunks, fed one at a time from "". */
  function Buffered(chunks: seq<string>): (b: string)
    ensures '\n' !in b
    decreases |chunks|
  {
    if chunks == [] then ""
    else
      var text := Buffered(chunks[..|chunks| - 1]) + chunks[|chunks| - 1];
      PendingIsTextAfterLastNewline(text);
      Pending(text)
  }

  /** The complete lines examined, chunk after chunk. */
  function LinesSeen(chunks: seq<string>): seq<string>
    decreases |chunks|
  {
    if chunks == [] then []
    else
      var init := chunks[..|chunks| - 1];
      LinesSeen(init) + CompleteLines(Buffered(init) + chunks[|chunks| - 1])
  }

  /** The events of a chunked stream: every complete line, then the final flush. */
  function DecodeChunks(parse: Parser, chunks: seq<string>): seq<Event> {
    LineEvents(parse, LinesSeen(chunks)) + LineEvent(parse, Buffered(chunks))
  }

  /** The events of a whole text: its complete lines, then its unterminated tail. */
  function DecodeText(parse: Parser, text: string): (r: seq<Event>)
    ensures |r| <= |CompleteLines(text)| + 1
  {
    LineEvents(parse, CompleteLines(text)) + LineEvent(parse, Pending(text))
  }

  /** Every '\n'-terminated line of the stream is examined exactly once, in stream
      order, and the buffer is the tail of everything received, whatever the chunking. */
  lemma {:induction false} LinesSeenAreCompleteLines(chunks: seq<string>)
    ensures LinesSeen(chunks) == CompleteLines(Concat(chunks))
    ensures Buffered(chunks) == Pending(Concat(chunks))
    decreases |chunks|
  {
    if chunks == [] {
      assert Split("", '\n') == [""];
    } else {
      var init := chunks[..|chunks| - 1];
      LinesSeenAreCompleteLines(init);
      FeedStep(Concat(init), chunks[|chunks| - 1]);
    }
  }

  /** Chunk-boundary invariance: the decoded events, final flush included, depend only
      on the concatenation of the chunks. */
  lemma ChunkBoundaryInvariance(parse: Parser, chunks: seq<string>, other: seq<string>)
    requires Concat(chunks) == Concat(other)
    ensures DecodeChunks(parse, chunks) == DecodeChunks(parse, other) == DecodeText(parse, Concat(chunks))
  {
    LinesSeenAreCompleteLines(chunks);
    LinesSeenAreCompleteLines(other);
  }
}
