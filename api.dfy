/** `streamDebate` of frontend/app/lib/api.ts: the request outcome, the read
    loop over the decoder, the final flush, and the mapping of failures to
    a last synthetic event before the failure is rethrown. The network is an
    input: a `Transport` says how `fetch` settled and what the body delivered. */
module Api {
  import opened Events
  import opened Text
  import opened Sse

  /** What a failed request or read throws. */
  datatype Thrown =
    | AbortError               // an Error named "AbortError": the signal was aborted
    | Failure(message: string) // any other Error, with its message
    | NotAnError               // a thrown value that is not an Error instance

  datatype Response = Response(ok: bool, status: nat, statusText: string, hasBody: bool)

  /** How `fetch` settled. */
  datatype Fetched = Responded(response: Response) | Rejected(thrown: Thrown)

  /** The transport as the client sees it: how `fetch` settled, the decoded text
      chunks the body delivered, and how reading ended: `None` for `done`,
      `Some(x)` when a read threw `x` after those chunks. */
  datatype Transport = Transport(fetched: Fetched, chunks: seq<string>, readEnd: Option<Thrown>)

  /** The events handed to the callback, in order, and what is rethrown (if anything). */
  datatype Outcome = Outcome(events: seq<Event>, thrown: Option<Thrown>)

  const StoppedText: string := "🛑 辯論已停止"
  const UnknownErrorText: string := "未知錯誤"
  const NullBodyMessage: string := "Response body is null"

  /** The message of the Error thrown for a non-OK response. */
  function HttpErrorMessage(r: Response): (m: string)
    ensures |m| > 7 + |r.statusText| && StartsWith(m, "HTTP ") && EndsWith(m, ": " + r.statusText)
    ensures var digits := m[5..|m| - |r.statusText| - 2];
            IsDigits(digits) && Canonical(digits) && DecimalValue(digits) == r.status
  {
    var digits := NatToString(r.status);
    NatToStringValue(r.status);
    Between("HTTP ", digits, ": " + r.statusText);
    "HTTP " + digits + (": " + r.statusText)
  }

  /** The event the catch block emits for a failure before rethrowing it:
      a cancellation is reported as a status, never as an error. */
  function Reported(x: Thrown): (e: Event)
    ensures e.Error? <==> !x.AbortError?
    ensures x.AbortError? ==> e == Status(StoppedText)
    ensures x.Failure? ==> e == Error(x.message)
    ensures x.NotAnError? ==> e == Error(UnknownErrorText)
  {
    match x
    case AbortError => Status(StoppedText)
    case Failure(m) => Error(m)
    case NotAnError => Error(UnknownErrorText)
  }

  /** The response is OK and has a body, so the read loop runs. */
  predicate Streams(t: Transport) {
    t.fetched.Responded? && t.fetched.response.ok && t.fetched.response.hasBody
  }

  /** The failure thrown before any chunk is read, if there is one. */
  function EarlyFailure(t: Transport): (x: Option<Thrown>)
    ensures x.None? <==> Streams(t)
    ensures t.fetched.Rejected? ==> x == Some(t.fetched.thrown)
    ensures t.fetched.Responded? && !t.fetched.response.ok ==> x == Some(Failure(HttpErrorMessage(t.fetched.response)))
    ensures t.fetched.Responded? && t.fetched.response.ok && !t.fetched.response.hasBody ==> x == Some(Failure(NullBodyMessage))
  {
    match t.fetched
    case Rejected(x) => Some(x)
    case Responded(r) =>
      if !r.ok then Some(Failure(HttpErrorMessage(r)))
      else if !r.hasBody then Some(Failure(NullBodyMessage))
      else None
  }

  /** What `streamDebate` emits and rethrows for a transport. */
  function StreamOutcome(parse: Parser, t: Transport): (r: Outcome)
    ensures r.thrown.Some? ==> r.events != [] && r.events[|r.events| - 1] == Reported(r.thrown.value)
    // a failed request reports its one failure and rethrows it
    ensures !Streams(t) ==> r == Outcome([Reported(EarlyFailure(t).value)], EarlyFailure(t))
    // once streaming, what is rethrown is what the read threw
    ensures Streams(t) ==> r.thrown == t.readEnd
    ensures r.thrown.None? <==> Streams(t) && t.readEnd.None?
    ensures r.thrown.None? ==> r.events == DecodeText(parse, Concat(t.chunks))
    // a failing read reports after the lines completed so far; the unterminated tail is dropped
    ensures Streams(t) && t.readEnd.Some? ==>
              r.events == LineEvents(parse, CompleteLines(Concat(t.chunks))) + [Reported(t.readEnd.value)]
  {
    match EarlyFailure(t)
    case Some(x) => Outcome([Reported(x)], Some(x))
    case None =>
      var text := Concat(t.chunks);
      var seen := LineEvents(parse, CompleteLines(text));
      match t.readEnd
      case None => Outcome(seen + LineEvent(parse, Pending(text)), None)
      case Some(x) => Outcome(seen + [Reported(x)], Some(x))
  }

  /** A non-OK response or a missing body yields exactly one error event carrying the
      message of the Error thrown, and that Error is rethrown. */
  lemma BadResponseReportsOneError(parse: Parser, t: Transport)
    requires t.fetched.Responded? && !(t.fetched.response.ok && t.fetched.response.hasBody)
    ensures var m := if t.fetched.response.ok then NullBodyMessage else HttpErrorMessage(t.fetched.response);
            StreamOutcome(parse, t) == Outcome([Error(m)], Some(Failure(m)))
  {
  }

  /** An abort, whether `fetch` rejects with it or a read throws it, is reported as
      the stopped status, never as an error, and is rethrown. */
  lemma AbortReportedAsStopped(parse: Parser, t: Transport)
    requires t.fetched == Rejected(AbortError) || (Streams(t) && t.readEnd == Some(AbortError))
    ensures var r := StreamOutcome(parse, t);
            && r.thrown == Some(AbortError)
            && r.events[|r.events| - 1] == Status(StoppedText)
            && (t.fetched.Rejected? ==> r.events == [Status(StoppedText)])
  {
  }

  /** The request, the read loop with its decoder, the end-of-stream flush, and the
      catch block that reports the failure as a last event and rethrows it. */
  method StreamDebate(parse: Parser, t: Transport) returns (events: seq<Event>, thrown: Option<Thrown>)
    ensures Outcome(events, thrown) == StreamOutcome(parse, t)
    ensures Streams(t) && t.readEnd.None? ==> events == DecodeChunks(parse, t.chunks)
  {
    var early := EarlyFailure(t);
    if early.Some? {
      events, thrown := [Reported(early.value)], early;
      return;
    }
    var decoder := new LineDecoder(parse);
    events := ReadChunks(decoder, t.chunks);
    LinesSeenAreCompleteLines(t.chunks);
    var text := Concat(t.chunks);
    match t.readEnd {
      case Some(x) =>
        events, thrown := events + [Reported(x)], Some(x);
        assert StreamOutcome(parse, t) == Outcome(LineEvents(parse, CompleteLines(text)) + [Reported(x)], Some(x));
      case None =>
        var last := decoder.Finish();
        assert last == LineEvent(parse, Pending(text));
        events, thrown := events + last, None;
    }
  }

  /** The read loop: every chunk goes through the decoder, and the events of the
      lines it completes are handed on in order. */
  method ReadChunks(decoder: LineDecoder, chunks: seq<string>) returns (events: seq<Event>)
    requires decoder.buffer == ""
    modifies decoder
    ensures decoder.buffer == Buffered(chunks)
    ensures events == LineEvents(decoder.parse, LinesSeen(chunks))
  {
    events := [];
    var i := 0;
    while i < |chunks|
      invariant 0 <= i <= |chunks|
      invariant decoder.buffer == Buffered(chunks[..i])
      invariant events == LineEvents(decoder.parse, LinesSeen(chunks[..i]))
    {
      var emitted, _ := decoder.Feed(chunks[i]);
      assert chunks[..i + 1][..i] == chunks[..i];
      LineEventsAppend(decoder.parse, LinesSeen(chunks[..i]), CompleteLines(Buffered(chunks[..i]) + chunks[i]));
      events := events + emitted;
      i := i + 1;
    }
    assert chunks[..i] == chunks;
  }
}
