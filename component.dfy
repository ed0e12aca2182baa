/** The `DebateUI` component of frontend/app/components/DebateUI.tsx, less its
    rendering: the event handler with its first-event latch, the 30 s connect
    timer, `startDebate` (reset, then catch and finally once the stream has
    settled), `stopDebate` and `clearAllBuffers`. Time is an explicit input in
    milliseconds; the timer and the abort signal are flags. */
module Component {
  import opened Events
  import opened Sessions
  import Api

  const ConnectingText: string := "⚡ 正在連接 AI 辯論引擎..."
  const TimeoutText: string := "❌ 連接超時，引擎可能正在冷啟動，請重試"
  const FailurePrefix: string := "❌ 連接失敗："
  const ConnectTimeoutMs: nat := 30000
  const ColdStartThresholdMs: int := 3000

  /** The component state: the session plus the lifecycle refs and flags.
      `timerArmed`: the connect timer is scheduled and has neither fired nor been
      cleared. `aborted`: the current AbortController's signal has been aborted. */
  datatype Ui = Ui(
    session: Session,
    isStreaming: bool,
    connectionTime: Option<int>,
    connectionStart: nat,
    firstEventSeen: bool,
    timerArmed: bool,
    aborted: bool)

  /** A live connect timer belongs to a streaming session that has not yet seen an
      event and has not been aborted. */
  predicate Consistent(u: Ui) {
    u.timerArmed ==> u.isStreaming && !u.firstEventSeen && !u.aborted
  }

  const Initial: Ui := Ui(Session(map[], map[], map[], map[], [], ""), false, None, 0, false, false, false)

  /** `clearAllBuffers`: both ref dictionaries and both mirrors become empty. */
  function ClearAll(s: Session): (r: Session)
    ensures r.messages == s.messages && r.status == s.status
    ensures forall n :: Lookup(r.textBuffer, n) == Lookup(r.roundInfo, n) == ""
    ensures forall n :: Lookup(r.currentText, n) == Lookup(r.currentRound, n) == ""
  {
    s.(textBuffer := map[], roundInfo := map[], currentText := map[], currentRound := map[])
  }

  /** The synchronous part of `startDebate`: reset everything, record the start
      time, take a fresh abort signal and arm the connect timer. */
  function Start(u: Ui, now: nat): (r: Ui)
    ensures Consistent(r) && r.isStreaming && r.timerArmed
    ensures r.session == ClearAll(u.session).(messages := [], status := ConnectingText)
    ensures r.connectionTime == None && r.connectionStart == now && !r.firstEventSeen
  {
    Ui(ClearAll(u.session).(messages := [], status := ConnectingText), true, None, now, false, true, false)
  }

  /** The first-event latch at the head of `handleSSEEvent`. */
  function Latch(u: Ui, now: nat): (r: Ui)
    ensures r.firstEventSeen
    ensures r == u.(firstEventSeen := true, timerArmed := r.timerArmed, connectionTime := r.connectionTime)
    // only the first event after a start does anything
    ensures u.firstEventSeen ==> r == u
    ensures !u.firstEventSeen ==> !r.timerArmed
    // the cold-start time is recorded by the first event only, and only above 3000 ms
    ensures r.connectionTime != u.connectionTime ==>
              !u.firstEventSeen && now - u.connectionStart > ColdStartThresholdMs
              && r.connectionTime == Some(now - u.connectionStart)
    ensures !u.firstEventSeen && now - u.connectionStart > ColdStartThresholdMs ==>
              r.connectionTime == Some(now - u.connectionStart)
    ensures Consistent(u) ==> Consistent(r)
  {
    if u.firstEventSeen then u
    else
      var elapsed := now - u.connectionStart;
      u.(firstEventSeen := true, timerArmed := false,
         connectionTime := if elapsed > ColdStartThresholdMs then Some(elapsed) else u.connectionTime)
  }

  /** `handleSSEEvent(e)` arriving at time `now`: the latch, then the event switch. */
  function Receive(u: Ui, e: Event, now: nat): (r: Ui)
    ensures r.session == Dispatch(u.session, e)
    ensures r.firstEventSeen && r.isStreaming == u.isStreaming && r.aborted == u.aborted
    ensures r.connectionStart == u.connectionStart
    ensures Consistent(u) ==> Consistent(r) && !r.timerArmed
    // the cold-start latch decides the timer and the recorded connection time
    ensures r.connectionTime == Latch(u, now).connectionTime && r.timerArmed == Latch(u, now).timerArmed
  {
    Latch(u, now).(session := Dispatch(u.session, e))
  }

  /** The connect-timer callback, which the runtime runs once the timer is armed and
      30 000 ms have passed since the start: abort and report a timeout, unless an
      event has arrived. */
  function Tick(u: Ui, now: nat): (r: Ui)
    ensures u.firstEventSeen ==> r.session == u.session && r.aborted == u.aborted
    ensures r.aborted != u.aborted ==>
              u.timerArmed && !u.firstEventSeen && now >= u.connectionStart + ConnectTimeoutMs
              && r.session == u.session.(status := TimeoutText)
    ensures Consistent(u) && u.timerArmed && now >= u.connectionStart + ConnectTimeoutMs ==>
              r.aborted && r.session == u.session.(status := TimeoutText) && !r.timerArmed
    ensures Consistent(u) ==> Consistent(r)
    // before the deadline, or with no timer armed, nothing happens
    ensures !(u.timerArmed && now >= u.connectionStart + ConnectTimeoutMs) ==> r == u
    // only the timer, the abort signal and the status line can change
    ensures r == u.(timerArmed := r.timerArmed, aborted := r.aborted, session := u.session.(status := r.session.status))
  {
    if u.timerArmed && now >= u.connectionStart + ConnectTimeoutMs then
      var fired := u.(timerArmed := false);
      if !u.firstEventSeen then fired.(aborted := true, session := u.session.(status := TimeoutText))
      else fired
    else u
  }

  /** The catch and finally of `startDebate` once `streamDebate` has returned or
      thrown: a failure other than an abort is reported, the timer is cleared and
      streaming ends on every path. */
  function Settle(u: Ui, thrown: Option<Api.Thrown>): (r: Ui)
    ensures !r.isStreaming && !r.timerArmed && Consistent(r)
    ensures r == u.(session := u.session.(status := r.session.status), timerArmed := false, isStreaming := false)
    ensures thrown.Some? && thrown.value.Failure? ==> r.session.status == FailurePrefix + thrown.value.message
    ensures !(thrown.Some? && thrown.value.Failure?) ==> r.session.status == u.session.status
  {
    var status := match thrown
      case Some(Failure(m)) => FailurePrefix + m
      case _ => u.session.status;
    u.(session := u.session.(status := status), timerArmed := false, isStreaming := false)
  }

  /** `stopDebate`: abort, clear the timer and every in-progress entry, keep the log. */
  function Stop(u: Ui): (r: Ui)
    ensures r.session == ClearAll(u.session).(status := Api.StoppedText)
    ensures r.session.messages == u.session.messages
    ensures r.aborted && !r.isStreaming && !r.timerArmed && Consistent(r)
    ensures r == u.(session := r.session, aborted := true, timerArmed := false, isStreaming := false)
  {
    u.(aborted := true, timerArmed := false, session := ClearAll(u.session).(status := Api.StoppedText),
       isStreaming := false)
  }

  /** What can happen to the component: a start, an event delivered by the stream,
      time passing, the stream settling (normally or with a thrown failure), a stop. */
  datatype Input =
    | Begin(at: nat)
    | Deliver(event: Event, at: nat)
    | Clock(at: nat)
    | Settled(thrown: Option<Api.Thrown>)
    | Cancel

  /** One input's effect on the component. */
  function Step(u: Ui, i: Input): (r: Ui)
    ensures Consistent(u) ==> Consistent(r)
    ensures i.Deliver? ==> r.firstEventSeen && r.session == Dispatch(u.session, i.event)
    ensures i.Settled? || i.Cancel? ==> !r.isStreaming && !r.timerArmed
  {
    match i
    case Begin(t) => Start(u, t)
    case Deliver(e, t) => Receive(u, e, t)
    case Clock(t) => Tick(u, t)
    case Settled(x) => Settle(u, x)
    case Cancel => Stop(u)
  }

  function Run(u: Ui, inputs: seq<Input>): Ui
    decreases |inputs|
  {
    if inputs == [] then u else Step(Run(u, inputs[..|inputs| - 1]), inputs[|inputs| - 1])
  }

  lemma {:induction false} RunAppend(u: Ui, a: seq<Input>, b: seq<Input>)
    ensures Run(u, a + b) == Run(Run(u, a), b)
    decreases |b|
  {
    if b == [] {
      assert a + b == a;
    } else {
      assert (a + b)[..|a + b| - 1] == a + b[..|b| - 1];
      RunAppend(u, a, b[..|b| - 1]);
    }
  }

  /** Every input keeps a live timer tied to a streaming, event-less, unaborted session. */
  lemma {:induction false} RunKeepsConsistent(u: Ui, inputs: seq<Input>)
    requires Consistent(u)
    ensures Consistent(Run(u, inputs))
    decreases |inputs|
  {
    if inputs != [] {
      RunKeepsConsistent(u, inputs[..|inputs| - 1]);
    }
  }

  /** Inputs from the running stream and the clock only. */
  predicate WithinSession(inputs: seq<Input>) {
    forall i :: 0 <= i < |inputs| ==> inputs[i].Deliver? || inputs[i].Clock? || inputs[i].Settled?
  }

  /** Once the first event has arrived no timeout applies any more: however much time
      passes, the timer never aborts the session. */
  lemma {:induction false} NoTimeoutAfterFirstEvent(u: Ui, inputs: seq<Input>)
    requires Consistent(u) && u.firstEventSeen
    requires WithinSession(inputs)
    ensures Run(u, inputs).aborted == u.aborted && !Run(u, inputs).timerArmed
    ensures Run(u, inputs).firstEventSeen
    decreases |inputs|
  {
    if inputs != [] {
      var init := inputs[..|inputs| - 1];
      assert WithinSession(init) by {
        forall i | 0 <= i < |init| ensures init[i].Deliver? || init[i].Clock? || init[i].Settled? {
          assert init[i] == inputs[i];
        }
      }
      NoTimeoutAfterFirstEvent(u, init);
      RunKeepsConsistent(u, init);
    }
  }

  /** Clock readings only. */
  function Ticks(times: seq<nat>): (r: seq<Input>)
    ensures |r| == |times|
    ensures forall i :: 0 <= i < |times| ==> r[i] == Clock(times[i])
    decreases |times|
  {
    if times == [] then [] else Ticks(times[..|times| - 1]) + [Clock(times[|times| - 1])]
  }

  /** Some reading in `times` is at or past `deadline`. */
  predicate Reached(times: seq<nat>, deadline: nat)
    decreases |times|
  {
    times != [] && (times[|times| - 1] >= deadline || Reached(times[..|times| - 1], deadline))
  }

  /** While no event arrives, the connecting phase ends in a timeout exactly when the
      clock reaches 30 000 ms after the start; the timeout aborts the transport and
      shows the timeout status. */
  lemma {:induction false} TimeoutIffDeadline(u: Ui, times: seq<nat>)
    requires Consistent(u) && u.timerArmed
    ensures var r := Run(u, Ticks(times));
            && (r.aborted <==> Reached(times, u.connectionStart + ConnectTimeoutMs))
            && (r.aborted ==> r.session == u.session.(status := TimeoutText))
            && (!r.aborted ==> r == u)
    decreases |times|
  {
    if times != [] {
      var init := times[..|times| - 1];
      TimeoutIffDeadline(u, init);
      assert Ticks(times)[..|times| - 1] == Ticks(init);
      RunKeepsConsistent(u, Ticks(init));
    }
  }

  /** The stream's events, delivered in order at the given times. */
  function Deliveries(es: seq<Event>, times: seq<nat>): (r: seq<Input>)
    requires |times| == |es|
    ensures |r| == |es|
    ensures forall i :: 0 <= i < |es| ==> r[i] == Deliver(es[i], times[i])
    decreases |es|
  {
    if es == [] then []
    else Deliveries(es[..|es| - 1], times[..|es| - 1]) + [Deliver(es[|es| - 1], times[|es| - 1])]
  }

  /** Delivered events reach the session exactly as the event switch applies them,
      whenever they arrive; the first of them disarms the connect timer; streaming
      and the abort signal are left as they were. */
  lemma {:induction false} RunDeliveries(u: Ui, es: seq<Event>, times: seq<nat>)
    requires |times| == |es|
    ensures var r := Run(u, Deliveries(es, times));
            && r.session == DispatchAll(u.session, es)
            && r.isStreaming == u.isStreaming && r.aborted == u.aborted
            && (es != [] ==> r.firstEventSeen && (Consistent(u) ==> !r.timerArmed))
            && (es == [] ==> r == u)
    decreases |es|
  {
    if es != [] {
      var init, e := es[..|es| - 1], es[|es| - 1];
      RunDeliveries(u, init, times[..|es| - 1]);
      var inputs := Deliveries(es, times);
      if Consistent(u) {
        RunKeepsConsistent(u, Deliveries(init, times[..|es| - 1]));
      }
      assert inputs[..|inputs| - 1] == Deliveries(init, times[..|es| - 1]);
    }
  }

  /** A start, the stream's events and a normal end: the session is the fresh one
      with every event applied; streaming is over, the timer cleared and nothing
      aborted. */
  lemma StartDeliverSettle(u: Ui, start: nat, es: seq<Event>, times: seq<nat>)
    requires |times| == |es|
    ensures var r := Run(u, [Begin(start)] + Deliveries(es, times) + [Settled(None)]);
            && r.session == DispatchAll(Start(u, start).session, es)
            && !r.isStreaming && !r.timerArmed && !r.aborted
  {
    var started := Start(u, start);
    var deliveries := Deliveries(es, times);
    RunAppend(u, [Begin(start)], deliveries);
    assert Run(u, [Begin(start)]) == started by {
      assert [Begin(start)][..0] == [];
    }
    RunDeliveries(started, es, times);
    RunAppend(u, [Begin(start)] + deliveries, [Settled(None)]);
    var delivered := Run(started, deliveries);
    assert Run(delivered, [Settled(None)]) == Settle(delivered, None) by {
      assert [Settled(None)][..0] == [];
    }
  }

  /** The timeout status does not survive: the abort makes the stream report the stop
      status as its first event, which also records the (cold-start) connect time, and
      the abort leaves that status in place when the stream settles. */
  lemma TimeoutStatusIsOverwritten(u: Ui, t0: nat, t1: nat, t2: nat)
    requires t0 + ConnectTimeoutMs <= t1 <= t2
    ensures Run(u, [Begin(t0), Clock(t1)]).session.status == TimeoutText
    ensures var r := Run(u, [Begin(t0), Clock(t1), Deliver(Api.Reported(Api.AbortError), t2), Settled(Some(Api.AbortError))]);
            && r.session.status == Api.StoppedText
            && r.connectionTime == Some(t2 - t0)
            && r.aborted && !r.isStreaming && !r.timerArmed
  {
    var timedOut := Run(u, [Begin(t0), Clock(t1)]);
    assert Run(u, [Begin(t0)]) == Start(u, t0) by {
      assert [Begin(t0)][..0] == [];
    }
    assert timedOut == Tick(Start(u, t0), t1) by {
      assert [Begin(t0), Clock(t1)][..1] == [Begin(t0)];
    }
    var all := [Begin(t0), Clock(t1), Deliver(Api.Reported(Api.AbortError), t2), Settled(Some(Api.AbortError))];
    assert all[..3][..2] == [Begin(t0), Clock(t1)];
    var delivered := Run(u, all[..3]);
    assert delivered == Receive(timedOut, Status(Api.StoppedText), t2);
    assert delivered.session.status == Api.StoppedText;
    assert Run(u, all) == Settle(delivered, Some(Api.AbortError));
  }

  /** After a failure that is not an abort the stream reports it as an error event,
      and the catch block then replaces that status with the connection-failure one. */
  lemma FailureStatusWins(u: Ui, message: string, now: nat)
    ensures Run(u, [Deliver(Error(message), now)]).session.status == ErrorPrefix + message
    ensures Run(u, [Deliver(Error(message), now), Settled(Some(Api.Failure(message)))]).session.status
            == FailurePrefix + message
  {
    assert [Deliver(Error(message), now), Settled(Some(Api.Failure(message)))][..1] == [Deliver(Error(message), now)];
    assert [Deliver(Error(message), now)][..0] == [];
  }

  /** The component, with the ref dictionaries, their mirrors, the log and the
      lifecycle refs as fields that its handlers update in place. */
  class DebateUI {
    var textBuffer: map<Node, string>
    var roundInfo: map<Node, string>
    var currentText: map<Node, string>
    var currentRound: map<Node, string>
    var messages: seq<Message>
    var status: string
    var isStreaming: bool
    var connectionTime: Option<int>
    var connectionStart: nat
    var firstChunkReceived: bool
    var timerArmed: bool
    var aborted: bool

    function Model(): Ui
      reads this
    {
      Ui(Session(textBuffer, roundInfo, currentText, currentRound, messages, status),
         isStreaming, connectionTime, connectionStart, firstChunkReceived, timerArmed, aborted)
    }

    constructor ()
      ensures Model() == Initial
    {
      textBuffer, roundInfo, currentText, currentRound := map[], map[], map[], map[];
      messages, status := [], "";
      isStreaming, connectionTime, connectionStart := false, None, 0;
      firstChunkReceived, timerArmed, aborted := false, false, false;
    }

    method ClearAllBuffers()
      modifies this
      ensures Model() == old(Model()).(session := ClearAll(old(Model()).session))
    {
      textBuffer := map[];
      roundInfo := map[];
      currentText := map[];
      currentRound := map[];
    }

    /** `handleSSEEvent(e)` at time `now`: the first-event latch, then the event switch. */
    method HandleSSEEvent(e: Event, now: nat)
      modifies this
      ensures Model() == Receive(old(Model()), e, now)
    {
      LatchFirstEvent(now);
      ApplyEvent(e);
    }

    /** The head of `handleSSEEvent`: the first event after a start clears the
        connect timer and, past 3000 ms, records the cold-start time. */
    method LatchFirstEvent(now: nat)
      modifies this
      ensures Model() == Latch(old(Model()), now)
    {
      if !firstChunkReceived {
        firstChunkReceived := true;
        var elapsed := now - connectionStart;
        timerArmed := false;
        if elapsed > ColdStartThresholdMs {
          connectionTime := Some(elapsed);
        }
      }
    }

    /** The event switch of `handleSSEEvent`, on the ref dictionaries, their mirrors,
        the log and the status line. */
    method ApplyEvent(e: Event)
      modifies this
      ensures Model() == old(Model()).(session := Dispatch(old(Model()).session, e))
    {
      match e {
        case Status(t) =>
          status := t;
        case Speaker(n, round) =>
          BeginSpeech(n, round);
        case Token(n, t) =>
          AppendToken(n, t);
        case SpeakerEnd(n) =>
          FinishSpeech(n);
        case Complete(t) =>
          status := t;
        case Error(t) =>
          status := ErrorPrefix + t;
      }
    }

    /** The `speaker` case: a fresh buffer and the round label for `n`. */
    method BeginSpeech(n: Node, round: string)
      modifies this
      ensures Model() == old(Model()).(session := Dispatch(old(Model()).session, Speaker(n, round)))
    {
      textBuffer := textBuffer[n := ""];
      roundInfo := roundInfo[n := round];
      currentRound := currentRound[n := round];
    }

    /** The `token` case: the buffer of `n` grows by `t` and is rendered. */
    method AppendToken(n: Node, t: string)
      modifies this
      ensures Model() == old(Model()).(session := Dispatch(old(Model()).session, Token(n, t)))
    {
      textBuffer := textBuffer[n := Lookup(textBuffer, n) + t];
      currentText := currentText[n := textBuffer[n]];
    }

    /** The `speaker_end` case: the buffered speech of `n` joins the log and every
        entry of `n` is emptied. */
    method FinishSpeech(n: Node)
      modifies this
      ensures Model() == old(Model()).(session := Dispatch(old(Model()).session, SpeakerEnd(n)))
    {
      var finalText := Lookup(textBuffer, n);
      var round := Lookup(roundInfo, n);
      messages := messages + [Message(n, finalText, round)];
      textBuffer, roundInfo := textBuffer[n := ""], roundInfo[n := ""];
      currentText, currentRound := currentText[n := ""], currentRound[n := ""];
    }

    method StartDebate(now: nat)
      modifies this
      ensures Model() == Start(old(Model()), now)
    {
      ResetView();
      ArmConnectTimer(now);
    }

    /** The reset at the head of `startDebate`: streaming on, an empty log, empty
        buffers and the connecting status. */
    method ResetView()
      modifies this
      ensures Model() == old(Model()).(isStreaming := true,
                                       session := ClearAll(old(Model()).session).(messages := [], status := ConnectingText))
    {
      isStreaming, messages := true, [];
      ClearAllBuffers();
      status := ConnectingText;
    }

    /** The rest of the synchronous part of `startDebate`: no cold-start time yet, the
        start time recorded, the first-event latch reopened, a fresh abort signal and
        the 30 s connect timer scheduled. */
    method ArmConnectTimer(now: nat)
      modifies this
      ensures Model() == old(Model()).(connectionTime := None, connectionStart := now, firstEventSeen := false,
                                       aborted := false, timerArmed := true)
    {
      connectionTime, connectionStart := None, now;
      firstChunkReceived, aborted, timerArmed := false, false, true;
    }

    method ConnectTimeout(now: nat)
      modifies this
      ensures Model() == Tick(old(Model()), now)
    {
      if timerArmed && now >= connectionStart + ConnectTimeoutMs {
        timerArmed := false;
        if !firstChunkReceived {
          aborted := true;
          status := TimeoutText;
        }
      }
    }

    method SettleDebate(thrown: Option<Api.Thrown>)
      modifies this
      ensures Model() == Settle(old(Model()), thrown)
    {
      if thrown.Some? && thrown.value.Failure? {
        status := FailurePrefix + thrown.value.message;
      }
      timerArmed := false;
      isStreaming := false;
    }

    method StopDebate()
      modifies this
      ensures Model() == Stop(old(Model()))
    {
      aborted := true;
      timerArmed := false;
      ClearAllBuffers();
      isStreaming := false;
      status := Api.StoppedText;
    }
  }
}
