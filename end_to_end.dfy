/** The backend's stream read by the client: whatever chunks the transport cuts
    the response body into, the decoder gives back the generator's events, and the
    component's log ends up holding every speech of the debate in order. */
module EndToEnd {
  import opened Events
  import opened Text
  import opened Sse
  import opened Sessions
  import Api
  import Json
  import Backend
  import Component

  /** The payload of every frame, in order. */
  function Payloads(es: seq<Event>): (ps: seq<string>)
    ensures |ps| == |es|
    decreases |es|
  {
    if es == [] then [] else Payloads(es[..|es| - 1]) + [Backend.EventJson(es[|es| - 1])]
  }

  /** A response body made of `data: <payload>\n\n` frames. */
  function Body(ps: seq<string>): string
    decreases |ps|
  {
    if ps == [] then "" else Body(ps[..|ps| - 1]) + (DataPrefix + ps[|ps| - 1] + "\n\n")
  }

  /** The lines of such a body: each payload's data line, then a blank line. */
  function BodyLines(ps: seq<string>): seq<string>
    decreases |ps|
  {
    if ps == [] then [] else BodyLines(ps[..|ps| - 1]) + [DataPrefix + ps[|ps| - 1], ""]
  }

  predicate OneLine(ps: seq<string>) {
    forall i :: 0 <= i < |ps| ==> '\n' !in ps[i]
  }

  /** `data: <payload>\n\n` splits into its data line and two empty pieces. */
  lemma FrameSplit(p: string)
    requires '\n' !in p
    ensures Split(DataPrefix + p + "\n\n", '\n') == [DataPrefix + p, "", ""]
  {
    var line := DataPrefix + p;
    assert '\n' !in line by {
      forall i | 0 <= i < |line| ensures line[i] != '\n' {
        if i >= |DataPrefix| {
          assert line[i] == p[i - |DataPrefix|];
        }
      }
    }
    assert Join([""], '\n') == "";
    assert [line, "", ""][1..] == ["", ""] && ["", ""][1..] == [""];
    assert Join(["", ""], '\n') == "\n";
    assert Join([line, "", ""], '\n') == line + "\n\n";
    JoinSplit([line, "", ""], '\n');
  }

  /** A body of one-line payloads is a run of complete lines, each data line followed
      by a blank line, with nothing left over for the final flush. */
  lemma {:induction false} BodyIsLines(ps: seq<string>)
    requires OneLine(ps)
    ensures CompleteLines(Body(ps)) == BodyLines(ps)
    ensures Pending(Body(ps)) == ""
    decreases |ps|
  {
    if ps == [] {
      assert Split("", '\n') == [""];
    } else {
      var init, p := ps[..|ps| - 1], ps[|ps| - 1];
      assert OneLine(init) by {
        forall i | 0 <= i < |init| ensures '\n' !in init[i] {
          assert init[i] == ps[i];
        }
      }
      BodyIsLines(init);
      var frame := DataPrefix + p + "\n\n";
      FeedStep(Body(init), frame);
      FrameSplit(p);
      assert "" + frame == frame;
    }
  }

  /** Every data line yields the event its payload parses to, every blank line nothing. */
  lemma {:induction false} BodyLinesDecode(parse: Parser, ps: seq<string>, es: seq<Event>)
    requires |ps| == |es|
    requires forall i :: 0 <= i < |ps| ==> parse(ps[i]) == Some(es[i])
    ensures LineEvents(parse, BodyLines(ps)) == es
    decreases |ps|
  {
    if ps != [] {
      var n := |ps| - 1;
      var init, before := ps[..n], es[..n];
      forall i | 0 <= i < n ensures parse(init[i]) == Some(before[i]) {
        assert init[i] == ps[i] && before[i] == es[i];
      }
      BodyLinesDecode(parse, init, before);
      var frame := [DataPrefix + ps[n], ""];
      assert BodyLines(ps) == BodyLines(init) + frame;
      LineEventsAppend(parse, BodyLines(init), frame);
      FrameLineEvents(parse, ps[n], es[n]);
      assert before + [es[n]] == es;
    }
  }

  /** The two lines of one frame yield exactly the event of its payload. */
  lemma FrameLineEvents(parse: Parser, p: string, e: Event)
    requires parse(p) == Some(e)
    ensures LineEvents(parse, [DataPrefix + p, ""]) == [e]
  {
    var line := DataPrefix + p;
    assert line[..|DataPrefix|] == DataPrefix && Payload(line) == p;
    assert LineEvent(parse, line) == [e];
    assert LineEvent(parse, "") == [];
    assert LineEvents(parse, [line]) == [e] by {
      assert [line][..0] == [];
    }
    assert [line, ""][..1] == [line];
  }

  /** The backend's frames are such a body, over the JSON of each event. */
  lemma {:induction false} FramesAreBody(es: seq<Event>)
    ensures Backend.Frames(es) == Body(Payloads(es))
    decreases |es|
  {
    if es != [] {
      var init := es[..|es| - 1];
      FramesAreBody(init);
      var ps := Payloads(es);
      assert ps[..|es| - 1] == Payloads(init);
    }
  }

  /** Each payload is the JSON of its event. */
  lemma {:induction false} PayloadAt(es: seq<Event>, i: nat)
    requires i < |es|
    ensures Payloads(es)[i] == Backend.EventJson(es[i])
    decreases |es|
  {
    if i < |es| - 1 {
      PayloadAt(es[..|es| - 1], i);
    }
  }

  /** No payload holds a line break. */
  lemma PayloadsOneLine(es: seq<Event>)
    ensures OneLine(Payloads(es))
  {
    forall i | 0 <= i < |es| ensures '\n' !in Payloads(es)[i] {
      PayloadAt(es, i);
      OneLineJson(es[i]);
    }
  }

  /** The JSON of an event is printable ASCII, so it holds no line break. */
  lemma OneLineJson(e: Event)
    ensures '\n' !in Backend.EventJson(e)
  {
    assert Json.Printable(Backend.EventJson(e));
  }

  /** The client's parser reads back every payload the backend writes for `es`. */
  predicate ReadsBack(parse: Parser, es: seq<Event>) {
    forall i :: 0 <= i < |es| ==> parse(Backend.EventJson(es[i])) == Some(es[i])
  }

  /** Decoding the response body gives back the events it was written from. */
  lemma DecodeFrames(parse: Parser, es: seq<Event>)
    requires ReadsBack(parse, es)
    ensures DecodeText(parse, Backend.Frames(es)) == es
  {
    FramesAreBody(es);
    PayloadsOneLine(es);
    BodyIsLines(Payloads(es));
    forall i | 0 <= i < |es| ensures parse(Payloads(es)[i]) == Some(es[i]) {
      PayloadAt(es, i);
    }
    BodyLinesDecode(parse, Payloads(es), es);
  }

  /** The JSON reader reads back every event the backend writes. */
  lemma JsonReaderReadsBack(es: seq<Event>)
    ensures ReadsBack(Backend.ParseEvent, es)
  {
    forall i | 0 <= i < |es| ensures Backend.ParseEvent(Backend.EventJson(es[i])) == Some(es[i]) {
      Backend.ParseEventInverts(es[i]);
    }
  }

  /** However the transport cuts the debate's response body into chunks, the client
      emits exactly the generator's events, rethrows nothing, and the event switch
      logs every speech of every round in order, ending on the closing status. */
  lemma DebateEndToEnd(parse: Parser, topic: string, maxRounds: int, chunks: seq<string>, s: Session)
    requires ReadsBack(parse, Backend.DebateEvents(topic, maxRounds))
    requires Concat(chunks) == Backend.Frames(Backend.DebateEvents(topic, maxRounds))
    ensures DecodeChunks(parse, chunks) == Backend.DebateEvents(topic, maxRounds)
    ensures var response := Api.Response(true, 200, "OK", true);
            Api.StreamOutcome(parse, Api.Transport(Api.Responded(response), chunks, None))
            == Api.Outcome(Backend.DebateEvents(topic, maxRounds), None)
    ensures var r := DispatchAll(s, DecodeChunks(parse, chunks));
            && r.messages == s.messages + Backend.Transcript(Backend.Script(topic), Backend.RoundCount(maxRounds))
            && r.status == Backend.CompleteText(maxRounds)
  {
    var es := Backend.DebateEvents(topic, maxRounds);
    ChunkBoundaryInvariance(parse, chunks, chunks);
    DecodeFrames(parse, es);
    Backend.DebateTranscript(s, topic, maxRounds);
  }

  /** The same through the component: a start, every decoded event delivered at any
      times, and the stream settling normally leave the log holding exactly the
      debate's speeches, the closing status, streaming over and the timer cleared. */
  lemma DebateInComponent(topic: string, maxRounds: int, chunks: seq<string>, u: Component.Ui,
                          start: nat, times: seq<nat>)
    requires Concat(chunks) == Backend.Frames(Backend.DebateEvents(topic, maxRounds))
    requires |times| == |Backend.DebateEvents(topic, maxRounds)|
    ensures var es := DecodeChunks(Backend.ParseEvent, chunks);
            |es| == |times| &&
            var r := Component.Run(u, [Component.Begin(start)] + Component.Deliveries(es, times)
                                      + [Component.Settled(None)]);
            && r.session.messages == Backend.Transcript(Backend.Script(topic), Backend.RoundCount(maxRounds))
            && r.session.status == Backend.CompleteText(maxRounds)
            && !r.isStreaming && !r.timerArmed && !r.aborted
  {
    ScriptInComponent(Backend.Script(topic), Backend.RoundCount(maxRounds), Backend.CompleteText(maxRounds),
                      chunks, u, start, times);
  }

  /** The same for any speeches, round count and closing text. */
  lemma ScriptInComponent(sp: Backend.Speeches, k: nat, closing: string, chunks: seq<string>, u: Component.Ui,
                          start: nat, times: seq<nat>)
    requires var es := [Status(Backend.WakingText), Status(Backend.ReadyText)] + Backend.Rounds(sp, k) + [Complete(closing)];
             Concat(chunks) == Backend.Frames(es) && |times| == |es|
    ensures var es := [Status(Backend.WakingText), Status(Backend.ReadyText)] + Backend.Rounds(sp, k) + [Complete(closing)];
            && DecodeChunks(Backend.ParseEvent, chunks) == es
            && var r := Component.Run(u, [Component.Begin(start)] + Component.Deliveries(es, times)
                                         + [Component.Settled(None)]);
            && r.session.messages == Backend.Transcript(sp, k)
            && r.session.status == closing
            && !r.isStreaming && !r.timerArmed && !r.aborted
  {
    var es := [Status(Backend.WakingText), Status(Backend.ReadyText)] + Backend.Rounds(sp, k) + [Complete(closing)];
    ComponentReceivesAll(es, chunks, u, start, times);
    Backend.ScriptTranscript(Component.Start(u, start).session, sp, k, closing);
    var log := Backend.Transcript(sp, k);
    assert [] + log == log;
  }

  /** For any events the backend writes: a start, the decoded events delivered at any
      times, and a clean settle leave the session holding those events handled in
      order, streaming over, the timer cleared and nothing aborted. */
  lemma ComponentReceivesAll(es: seq<Event>, chunks: seq<string>, u: Component.Ui, start: nat, times: seq<nat>)
    requires Concat(chunks) == Backend.Frames(es)
    requires |times| == |es|
    ensures DecodeChunks(Backend.ParseEvent, chunks) == es
    ensures var r := Component.Run(u, [Component.Begin(start)] + Component.Deliveries(es, times)
                                      + [Component.Settled(None)]);
            && r.session == DispatchAll(Component.Start(u, start).session, es)
            && !r.isStreaming && !r.timerArmed && !r.aborted
  {
    JsonReaderReadsBack(es);
    ChunkBoundaryInvariance(Backend.ParseEvent, chunks, chunks);
    DecodeFrames(Backend.ParseEvent, es);
    Component.StartDeliverSettle(u, start, es, times);
  }
}
