/** The backend of backend/app/main.py: the scripted debate that
    `fake_debate_stream` yields as server-sent-event frames, the request's
    default round count, and the origin test of its CORS middleware. */
module Backend {
  import opened Events
  import opened Text
  import opened Sessions
  import Json
  import Sse

  const WakingText: string := "⚡ 正在喚醒 AI 辯論引擎..."
  const ReadyText: string := "🔥 引擎已就緒，開始辯論！"
  /** `max_rounds` when the request body leaves it out. */
  const DefaultMaxRounds: int := 3

  /** The body of `POST /debate`. */
  datatype DebateRequest = DebateRequest(topic: string, maxRounds: int)

  /** Validating a body whose `max_rounds` may be absent. */
  function Request(topic: string, maxRounds: Option<int>): (r: DebateRequest)
    ensures r.topic == topic
    ensures maxRounds.Some? ==> r.maxRounds == maxRounds.value
    ensures maxRounds.None? ==> r.maxRounds == 3
  {
    DebateRequest(topic, match maxRounds case Some(k) => k case None => DefaultMaxRounds)
  }

  /** `第 {round_num} 輪`. */
  function RoundLabel(round: int): (r: string)
    ensures |r| >= 4 && StartsWith(r, "第 ") && EndsWith(r, " 輪") && r[2..|r| - 2] == IntToString(round)
  {
    Between("第 ", IntToString(round), " 輪");
    "第 " + IntToString(round) + " 輪"
  }

  /** `s` is `before`, the topic between corner brackets, then `after`: the speech
      quotes the topic as given, whatever characters it holds. */
  predicate QuotesTopic(s: string, before: string, topic: string, after: string) {
    var lead, tail := before + "「", "」" + after;
    |s| == |lead| + |topic| + |tail|
    && StartsWith(s, lead) && EndsWith(s, tail) && s[|lead|..|s| - |tail|] == topic
  }

  /** The speech `before「topic」after`. */
  function Quoting(before: string, topic: string, after: string): (r: string)
    ensures QuotesTopic(r, before, topic, after)
  {
    Between(before + "「", topic, "」" + after);
    (before + "「") + topic + ("」" + after)
  }

  const OptimistOpeningBefore: string := "關於"
  const OptimistOpeningAfter: string := "，我認為這是一個充滿機會的領域。科技的進步總是帶來新的可能性，我們應該以開放的心態擁抱變革。"
  const OptimistRebuttalBefore: string := "針對懷疑者的觀點，我必須指出：每一次技術革命都曾引發類似的擔憂，但最終人類都成功適應並創造了更美好的未來。"
  const OptimistRebuttalAfter: string := "也不例外！"
  const SkepticOpeningBefore: string := "然而，我們必須謹慎看待"
  const SkepticOpeningAfter: string := "。過度樂觀可能導致我們忽視潛在的風險與挑戰。歷史告訴我們，盲目的技術崇拜往往帶來意想不到的後果。"
  const SkepticRebuttalBefore: string := "樂觀者忽略了一個關鍵事實：這次的變革速度和規模是前所未有的。"
  const SkepticRebuttalAfter: string := "的影響可能比我們預期的更加深遠，我們需要更多的監管和準備。"

  function OptimistOpening(topic: string): (r: string)
    ensures QuotesTopic(r, OptimistOpeningBefore, topic, OptimistOpeningAfter)
  {
    Quoting(OptimistOpeningBefore, topic, OptimistOpeningAfter)
  }

  function OptimistRebuttal(topic: string): (r: string)
    ensures QuotesTopic(r, OptimistRebuttalBefore, topic, OptimistRebuttalAfter)
  {
    Quoting(OptimistRebuttalBefore, topic, OptimistRebuttalAfter)
  }

  function SkepticOpening(topic: string): (r: string)
    ensures QuotesTopic(r, SkepticOpeningBefore, topic, SkepticOpeningAfter)
  {
    Quoting(SkepticOpeningBefore, topic, SkepticOpeningAfter)
  }

  function SkepticRebuttal(topic: string): (r: string)
    ensures QuotesTopic(r, SkepticRebuttalBefore, topic, SkepticRebuttalAfter)
  {
    Quoting(SkepticRebuttalBefore, topic, SkepticRebuttalAfter)
  }

  /** The four speeches of a debate: each debater's opening for round 1 and the
      rebuttal it repeats in every later round. */
  datatype Speeches = Speeches(optimistOpening: string, optimistRebuttal: string,
                               skepticOpening: string, skepticRebuttal: string)

  /** The speeches the generator writes around `topic`. */
  function Script(topic: string): (sp: Speeches)
    ensures QuotesTopic(sp.optimistOpening, OptimistOpeningBefore, topic, OptimistOpeningAfter)
    ensures QuotesTopic(sp.optimistRebuttal, OptimistRebuttalBefore, topic, OptimistRebuttalAfter)
    ensures QuotesTopic(sp.skepticOpening, SkepticOpeningBefore, topic, SkepticOpeningAfter)
    ensures QuotesTopic(sp.skepticRebuttal, SkepticRebuttalBefore, topic, SkepticRebuttalAfter)
  {
    Speeches(OptimistOpening(topic), OptimistRebuttal(topic), SkepticOpening(topic), SkepticRebuttal(topic))
  }

  /** The optimist's speech: the opening in round 1, the rebuttal afterwards. */
  function OptimistText(sp: Speeches, round: int): (r: string)
    ensures round <= 1 ==> r == sp.optimistOpening
    ensures round >= 2 ==> r == sp.optimistRebuttal
  {
    if round > 1 then sp.optimistRebuttal else sp.optimistOpening
  }

  /** The skeptic's speech: the opening in round 1, the rebuttal afterwards. */
  function SkepticText(sp: Speeches, round: int): (r: string)
    ensures round <= 1 ==> r == sp.skepticOpening
    ensures round >= 2 ==> r == sp.skepticRebuttal
  {
    if round > 1 then sp.skepticRebuttal else sp.skepticOpening
  }

  /** The closing status; it prints `max_rounds` as given, even when no round ran. */
  function CompleteText(maxRounds: int): (r: string)
    ensures |r| >= |CompletePrefix| + |CompleteSuffix| && StartsWith(r, CompletePrefix) && EndsWith(r, CompleteSuffix)
    ensures r[|CompletePrefix|..|r| - |CompleteSuffix|] == IntToString(maxRounds)
  {
    Between(CompletePrefix, IntToString(maxRounds), CompleteSuffix);
    CompletePrefix + IntToString(maxRounds) + CompleteSuffix
  }

  const CompletePrefix: string := "✅ 辯論結束！共進行了 "
  const CompleteSuffix: string := " 輪精彩交鋒。"

  /** One token event per character of `text`, in order. */
  function TokenEvents(n: Node, text: string): (r: seq<Event>)
    ensures |r| == |text|
    decreases |text|
  {
    if text == [] then [] else TokenEvents(n, text[..|text| - 1]) + [Token(n, [text[|text| - 1]])]
  }

  /** The `i`-th token event carries the `i`-th character of the speech. */
  lemma {:induction false} TokenEventsAt(n: Node, text: string, i: nat)
    requires i < |text|
    ensures TokenEvents(n, text)[i] == Token(n, [text[i]])
    decreases |text|
  {
    if i < |text| - 1 {
      TokenEventsAt(n, text[..|text| - 1], i);
    }
  }

  /** One debater's turn: speaker, its tokens, speaker_end. */
  function Turn(n: Node, round: string, text: string): (r: seq<Event>)
    ensures |r| == |text| + 2 && r[0] == Speaker(n, round) && r[|r| - 1] == SpeakerEnd(n)
    ensures forall i :: 1 <= i < |r| - 1 ==> r[i] == Token(n, [text[i - 1]])
    ensures forall i :: 0 <= i < |r| ==> About(r[i], n)
  {
    var r := [Speaker(n, round)] + TokenEvents(n, text) + [SpeakerEnd(n)];
    forall i | 1 <= i < |r| - 1
      ensures r[i] == Token(n, [text[i - 1]])
    {
      TokenEventsAt(n, text, i - 1);
    }
    r
  }

  /** Round `round`: the optimist's turn, then the skeptic's. */
  function RoundEvents(sp: Speeches, round: int): (r: seq<Event>)
    ensures var k := |OptimistText(sp, round)|;
            |r| == k + |SkepticText(sp, round)| + 4
            && r[0] == Speaker(Optimist, RoundLabel(round)) && r[k + 1] == SpeakerEnd(Optimist)
            && r[k + 2] == Speaker(Skeptic, RoundLabel(round)) && r[|r| - 1] == SpeakerEnd(Skeptic)
  {
    Turn(Optimist, RoundLabel(round), OptimistText(sp, round))
    + Turn(Skeptic, RoundLabel(round), SkepticText(sp, round))
  }

  /** Rounds 1 to `k`. */
  function Rounds(sp: Speeches, k: nat): (r: seq<Event>)
    ensures |r| >= 4 * k
    ensures r == [] <==> k == 0
    ensures k >= 1 ==> r[0] == Speaker(Optimist, RoundLabel(1)) && r[|r| - 1] == SpeakerEnd(Skeptic)
    decreases k
  {
    if k == 0 then [] else Rounds(sp, k - 1) + RoundEvents(sp, k)
  }

  /** `range(1, max_rounds + 1)` runs `max_rounds` rounds, and none when it is not positive. */
  function RoundCount(maxRounds: int): nat {
    if maxRounds > 0 then maxRounds else 0
  }

  /** Every event `fake_debate_stream` yields, in order. */
  function DebateEvents(topic: string, maxRounds: int): (r: seq<Event>)
    ensures |r| >= 3 && r[0] == Status(WakingText) && r[1] == Status(ReadyText)
    ensures r[|r| - 1] == Complete(CompleteText(maxRounds))
    ensures maxRounds <= 0 ==> r == [Status(WakingText), Status(ReadyText), Complete(CompleteText(maxRounds))]
  {
    [Status(WakingText), Status(ReadyText)] + Rounds(Script(topic), RoundCount(maxRounds))
    + [Complete(CompleteText(maxRounds))]
  }

  /** The `node` value the backend writes for a debater; the two names differ. */
  function NodeName(n: Node): (name: string)
    ensures name == "optimist" <==> n == Optimist
    ensures name == "skeptic" <==> n == Skeptic
  {
    match n
    case Optimist => "optimist"
    case Skeptic => "skeptic"
  }

  function NodeNamed(name: string): (n: Option<Node>)
    ensures n.Some? ==> NodeName(n.value) == name
  {
    if name == "optimist" then Some(Optimist)
    else if name == "skeptic" then Some(Skeptic)
    else None
  }

  /** The dict handed to `json.dumps`, keys in insertion order. The error event is
      the client's own type: the generator never yields it. */
  function EventMembers(e: Event): (ms: seq<(string, string)>)
    ensures |ms| >= 2 && ms[0].0 == "type"
  {
    match e
    case Status(t) => [("type", "status"), ("text", t)]
    case Speaker(n, t) => [("type", "speaker"), ("node", NodeName(n)), ("text", t)]
    case Token(n, t) => [("type", "token"), ("node", NodeName(n)), ("text", t)]
    case SpeakerEnd(n) => [("type", "speaker_end"), ("node", NodeName(n))]
    case Complete(t) => [("type", "complete"), ("text", t)]
    case Error(t) => [("type", "error"), ("text", t)]
  }

  /** The event a member list describes, if it has one of the layouts above. */
  function EventOf(ms: seq<(string, string)>): (r: Option<Event>)
    // only the dict of an event describes it
    ensures r.Some? ==> EventMembers(r.value) == ms
  {
    if |ms| == 2 && ms[0].0 == "type" && ms[1].0 == "text" then
      if ms[0].1 == "status" then Some(Status(ms[1].1))
      else if ms[0].1 == "complete" then Some(Complete(ms[1].1))
      else if ms[0].1 == "error" then Some(Error(ms[1].1))
      else None
    else if |ms| == 2 && ms[0] == ("type", "speaker_end") && ms[1].0 == "node" then
      match NodeNamed(ms[1].1)
      case Some(n) => Some(SpeakerEnd(n))
      case None => None
    else if |ms| == 3 && ms[0].0 == "type" && ms[1].0 == "node" && ms[2].0 == "text" then
      match NodeNamed(ms[1].1)
      case None => None
      case Some(n) =>
        if ms[0].1 == "speaker" then Some(Speaker(n, ms[2].1))
        else if ms[0].1 == "token" then Some(Token(n, ms[2].1))
        else None
    else None
  }

  /** `json.dumps` of the event's dict: printable ASCII, so one line. */
  function EventJson(e: Event): (s: string)
    ensures Json.Printable(s)
  {
    Json.Object(EventMembers(e))
  }

  /** The client's reading of a payload, for the backend's layouts. */
  function ParseEvent(payload: string): (r: Option<Event>)
    ensures r.Some? ==> Json.ReadObject(payload) == Some(EventMembers(r.value))
  {
    match Json.ReadObject(payload)
    case Some(ms) => EventOf(ms)
    case None => None
  }

  /** Every event the backend can write reads back as itself. */
  lemma ParseEventInverts(e: Event)
    ensures ParseEvent(EventJson(e)) == Some(e)
  {
    Json.ReadWrittenObject(EventMembers(e));
    EventOfMembers(e);
  }

  lemma EventOfMembers(e: Event)
    ensures EventOf(EventMembers(e)) == Some(e)
  {
    match e
    case Status(t) =>
    case Speaker(n, t) =>
    case Token(n, t) =>
    case SpeakerEnd(n) =>
    case Complete(t) =>
    case Error(t) =>
  }

  /** `f"data: {json.dumps(...)}\n\n"`. */
  function Frame(e: Event): (f: string)
    ensures |f| >= |Sse.DataPrefix| + 2 && Sse.IsDataLine(f) && EndsWith(f, "\n\n")
    ensures f[|Sse.DataPrefix|..|f| - 2] == EventJson(e)
  {
    Between(Sse.DataPrefix, EventJson(e), "\n\n");
    Sse.DataPrefix + EventJson(e) + "\n\n"
  }

  /** The response body: the frames of `es`, back to back. */
  function Frames(es: seq<Event>): (body: string)
    ensures es == [] <==> body == ""
    decreases |es|
  {
    if es == [] then "" else Frames(es[..|es| - 1]) + Frame(es[|es| - 1])
  }

  /** The body of two event runs is the body of the first, then that of the second:
      each frame goes out whole, in yield order. */
  lemma {:induction false} FramesAppend(a: seq<Event>, b: seq<Event>)
    ensures Frames(a + b) == Frames(a) + Frames(b)
    decreases |b|
  {
    if b == [] {
      assert a + b == a;
    } else {
      var init, last := b[..|b| - 1], b[|b| - 1];
      assert (a + b)[..|a + b| - 1] == a + init && (a + b)[|a + b| - 1] == last;
      FramesAppend(a, init);
      AppendAssoc(Frames(a), Frames(init), Frame(last));
    }
  }

  /** The events of one debater's turn, in yield order: speaker, one token per
      character, speaker_end. */
  method EmitTurn(n: Node, heading: string, text: string) returns (yielded: seq<Event>)
    ensures yielded == Turn(n, heading, text)
  {
    yielded := [Speaker(n, heading)];
    for i := 0 to |text|
      invariant yielded == [Speaker(n, heading)] + TokenEvents(n, text[..i])
    {
      assert text[..i + 1][..i] == text[..i];
      yielded := yielded + [Token(n, [text[i]])];
    }
    assert text[..|text|] == text;
    yielded := yielded + [SpeakerEnd(n)];
  }

  /** `fake_debate_stream(topic, max_rounds)`: the event of every frame it yields,
      in order (each frame is `Frame` of its event; the pauses between frames are
      left out). */
  method FakeDebateStream(topic: string, maxRounds: int) returns (yielded: seq<Event>)
    ensures yielded == DebateEvents(topic, maxRounds)
  {
    yielded := [Status(WakingText)];
    yielded := yielded + [Status(ReadyText)];
    var round := 1;
    while round <= maxRounds
      invariant 1 <= round <= RoundCount(maxRounds) + 1
      invariant yielded == [Status(WakingText), Status(ReadyText)] + Rounds(Script(topic), round - 1)
    {
      var heading := RoundLabel(round);
      var optimistText := OptimistOpening(topic);
      if round > 1 {
        optimistText := OptimistRebuttal(topic);
      }
      var optimistTurn := EmitTurn(Optimist, heading, optimistText);
      yielded := yielded + optimistTurn;
      var skepticText := SkepticOpening(topic);
      if round > 1 {
        skepticText := SkepticRebuttal(topic);
      }
      var skepticTurn := EmitTurn(Skeptic, heading, skepticText);
      yielded := yielded + skepticTurn;
      RoundsStep(Script(topic), round);
      round := round + 1;
    }
    assert round - 1 == RoundCount(maxRounds);
    yielded := yielded + [Complete(CompleteText(maxRounds))];
  }

  /** One more round adds the optimist's turn and then the skeptic's. */
  lemma RoundsStep(sp: Speeches, round: nat)
    requires round >= 1
    ensures [Status(WakingText), Status(ReadyText)] + Rounds(sp, round)
         == [Status(WakingText), Status(ReadyText)] + Rounds(sp, round - 1)
            + Turn(Optimist, RoundLabel(round), OptimistText(sp, round))
            + Turn(Skeptic, RoundLabel(round), SkepticText(sp, round))
  {
    var opening := [Status(WakingText), Status(ReadyText)];
    var first := Turn(Optimist, RoundLabel(round), OptimistText(sp, round));
    var second := Turn(Skeptic, RoundLabel(round), SkepticText(sp, round));
    AppendAssoc(opening, Rounds(sp, round - 1), first + second);
    AppendAssoc(opening + Rounds(sp, round - 1), first, second);
  }

  lemma AppendAssoc<T>(a: seq<T>, b: seq<T>, c: seq<T>)
    ensures a + (b + c) == a + b + c
  {
  }

  /** The log a full debate leaves: per round, the optimist's then the skeptic's
      speech with the round label. */
  function Transcript(sp: Speeches, k: nat): (ms: seq<Message>)
    ensures |ms| == 2 * k
    decreases k
  {
    if k == 0 then [] else Transcript(sp, k - 1) + RoundLog(sp, k)
  }

  /** What round `k` logs: the optimist's speech, then the skeptic's, under its label. */
  function RoundLog(sp: Speeches, k: int): seq<Message> {
    [Message(Optimist, OptimistText(sp, k), RoundLabel(k)), Message(Skeptic, SkepticText(sp, k), RoundLabel(k))]
  }

  /** The tokens of a speech, dispatched, extend that debater's buffer by the speech
      and change nothing else that a turn's end reads. */
  lemma {:induction false} TypedOut(s: Session, n: Node, text: string)
    ensures var r := DispatchAll(s, TokenEvents(n, text));
            && Lookup(r.textBuffer, n) == Lookup(s.textBuffer, n) + text
            && r.roundInfo == s.roundInfo && r.messages == s.messages && r.status == s.status
    decreases |text|
  {
    if text != [] {
      var init := text[..|text| - 1];
      assert TokenEvents(n, text)[..|text| - 1] == TokenEvents(n, init);
      TypedOut(s, n, init);
      assert Lookup(s.textBuffer, n) + init + [text[|text| - 1]] == Lookup(s.textBuffer, n) + text;
    }
  }

  /** One turn logs exactly one message: the speech under the round label. */
  lemma TurnMessage(s: Session, n: Node, heading: string, text: string)
    ensures var r := DispatchAll(s, Turn(n, heading, text));
            r.messages == s.messages + [Message(n, text, heading)] && r.status == s.status
  {
    var speaker, tokens, end := [Speaker(n, heading)], TokenEvents(n, text), [SpeakerEnd(n)];
    var started := Dispatch(s, Speaker(n, heading));
    DispatchOne(s, Speaker(n, heading));
    var typed := DispatchAll(started, tokens);
    TypedOut(started, n, text);
    assert Lookup(typed.textBuffer, n) == text by {
      assert "" + text == text;
    }
    var ended := Dispatch(typed, SpeakerEnd(n));
    DispatchOne(typed, SpeakerEnd(n));
    DispatchAllAppend(s, speaker, tokens);
    DispatchAllAppend(s, speaker + tokens, end);
    assert DispatchAll(s, Turn(n, heading, text)) == ended;
  }

  lemma DispatchOne(s: Session, e: Event)
    ensures DispatchAll(s, [e]) == Dispatch(s, e)
  {
    assert [e][..0] == [];
  }

  /** One round logs the optimist's speech and then the skeptic's. */
  lemma RoundMessages(s: Session, sp: Speeches, k: int)
    ensures var r := DispatchAll(s, RoundEvents(sp, k));
            r.messages == s.messages + RoundLog(sp, k) && r.status == s.status
  {
    TwoTurns(s, RoundLabel(k), OptimistText(sp, k), SkepticText(sp, k));
  }

  /** The optimist's turn and then the skeptic's, under one heading, log their two
      speeches in that order, whatever the speeches say. */
  lemma TwoTurns(s: Session, heading: string, first: string, second: string)
    ensures var r := DispatchAll(s, Turn(Optimist, heading, first) + Turn(Skeptic, heading, second));
            && r.messages == s.messages + [Message(Optimist, first, heading), Message(Skeptic, second, heading)]
            && r.status == s.status
  {
    var a, b := Turn(Optimist, heading, first), Turn(Skeptic, heading, second);
    DispatchAllAppend(s, a, b);
    TurnMessage(s, Optimist, heading, first);
    TurnMessage(DispatchAll(s, a), Skeptic, heading, second);
    AppendAssoc(s.messages, [Message(Optimist, first, heading)], [Message(Skeptic, second, heading)]);
  }

  /** Rounds 1 to `k`, dispatched from `s`, log the transcript of those rounds and
      leave the status alone. */
  predicate Logged(s: Session, sp: Speeches, k: nat) {
    var r := DispatchAll(s, Rounds(sp, k));
    r.messages == s.messages + Transcript(sp, k) && r.status == s.status
  }

  lemma {:induction false} RoundsTranscript(s: Session, sp: Speeches, k: nat)
    ensures Logged(s, sp, k)
    decreases k
  {
    if k == 0 {
      NoRoundsLogNothing(s, sp);
    } else {
      RoundsTranscript(s, sp, k - 1);
      RoundsTranscriptStep(s, sp, k);
    }
  }

  lemma NoRoundsLogNothing(s: Session, sp: Speeches)
    ensures Logged(s, sp, 0)
  {
    assert s.messages + [] == s.messages;
  }

  /** Round `k` extends what rounds 1 to `k - 1` logged by its own two messages. */
  lemma RoundsTranscriptStep(s: Session, sp: Speeches, k: nat)
    requires k >= 1
    ensures Logged(s, sp, k - 1) ==> Logged(s, sp, k)
  {
    var before := DispatchAll(s, Rounds(sp, k - 1));
    DispatchAllAppend(s, Rounds(sp, k - 1), RoundEvents(sp, k));
    RoundMessages(before, sp, k);
    AppendAssoc(s.messages, Transcript(sp, k - 1), RoundLog(sp, k));
  }

  /** The two opening statuses log nothing and leave the ready status. */
  lemma OpeningEffect(s: Session)
    ensures var r := DispatchAll(s, [Status(WakingText), Status(ReadyText)]);
            r.messages == s.messages && r.status == ReadyText
  {
    var waking := Dispatch(s, Status(WakingText));
    DispatchOne(s, Status(WakingText));
    DispatchAllAppend(s, [Status(WakingText)], [Status(ReadyText)]);
    DispatchOne(waking, Status(ReadyText));
    assert [Status(WakingText)] + [Status(ReadyText)] == [Status(WakingText), Status(ReadyText)];
  }

  /** Whatever the session held, the whole stream leaves the previous log followed
      by every speech in order, each under its round label, and the closing status.
      With the default request that is six messages. */
  lemma DebateTranscript(s: Session, topic: string, maxRounds: int)
    ensures var r := DispatchAll(s, DebateEvents(topic, maxRounds));
            && r.messages == s.messages + Transcript(Script(topic), RoundCount(maxRounds))
            && r.status == CompleteText(maxRounds)
  {
    ScriptTranscript(s, Script(topic), RoundCount(maxRounds), CompleteText(maxRounds));
  }

  /** With the default of three rounds, a debate logs six speeches. */
  lemma DefaultDebateLength(s: Session, topic: string)
    ensures |DispatchAll(s, DebateEvents(topic, DefaultMaxRounds)).messages| == |s.messages| + 6
  {
    DebateTranscript(s, topic, DefaultMaxRounds);
    assert |Transcript(Script(topic), RoundCount(DefaultMaxRounds))| == 6;
  }

  /** The same for any speeches, round count and closing text. */
  lemma ScriptTranscript(s: Session, sp: Speeches, k: nat, closing: string)
    ensures var r := DispatchAll(s, [Status(WakingText), Status(ReadyText)] + Rounds(sp, k) + [Complete(closing)]);
            r.messages == s.messages + Transcript(sp, k) && r.status == closing
  {
    var opening := [Status(WakingText), Status(ReadyText)];
    var rounds := Rounds(sp, k);
    OpeningEffect(s);
    DispatchAllAppend(s, opening, rounds);
    var ready := DispatchAll(s, opening);
    RoundsTranscript(ready, sp, k);
    DispatchAllAppend(s, opening + rounds, [Complete(closing)]);
    DispatchOne(DispatchAll(ready, rounds), Complete(closing));
  }

  /** The characters of a speech, token by token, spell the speech: the text a
      turn's end finalizes is exactly it. */
  lemma {:induction false} TokensSpellText(n: Node, text: string)
    ensures TokensSince(TokenEvents(n, text), n) == text
    decreases |text|
  {
    if text != [] {
      assert TokenEvents(n, text)[..|text| - 1] == TokenEvents(n, text[..|text| - 1]);
      TokensSpellText(n, text[..|text| - 1]);
      assert text[..|text| - 1] + [text[|text| - 1]] == text;
    }
  }

  const LocalhostPrefix: string := "http://localhost"
  const HttpsScheme: string := "https://"
  const PagesSuffix: string := ".pages.dev"

  /** The origin without one trailing newline, which `$` lets the pattern skip. */
  function Core(origin: string): (c: string)
    ensures origin != [] && origin[|origin| - 1] == '\n' ==> origin == c + "\n"
    ensures !(origin != [] && origin[|origin| - 1] == '\n') ==> c == origin
  {
    if origin != [] && origin[|origin| - 1] == '\n' then origin[..|origin| - 1] else origin
  }

  /** `re.match(r"https://.*\.pages\.dev$", origin)`: `https://`, then any run of
      characters other than a newline, then `.pages.dev`, then the end of the text
      or a single newline that ends it. */
  predicate MatchesPagesDev(origin: string) {
    && |Core(origin)| >= |HttpsScheme| + |PagesSuffix|
    && StartsWith(Core(origin), HttpsScheme)
    && EndsWith(Core(origin), PagesSuffix)
    && '\n' !in PagesHost(origin)
  }

  /** What the `.*` of the pattern spans. */
  function PagesHost(origin: string): (h: string)
    requires |Core(origin)| >= |HttpsScheme| + |PagesSuffix|
    ensures StartsWith(Core(origin), HttpsScheme) && EndsWith(Core(origin), PagesSuffix) ==>
              Core(origin) == HttpsScheme + h + PagesSuffix
  {
    Core(origin)[|HttpsScheme|..|Core(origin)| - |PagesSuffix|]
  }

  /** `RegexCORSMiddleware.is_allowed_origin`: localhost, then Cloudflare Pages,
      then the comma-separated `ALLOWED_ORIGINS` value (`""` when unset), then the
      base middleware's verdict, which is an input here. */
  function IsAllowedOrigin(origin: string, allowedOrigins: string, baseAllows: bool): (r: bool)
    ensures StartsWith(origin, LocalhostPrefix) ==> r
    ensures MatchesPagesDev(origin) ==> r
    ensures !StartsWith(origin, LocalhostPrefix) && !MatchesPagesDev(origin) ==>
              (r <==> origin in Split(allowedOrigins, ',') || baseAllows)
  {
    if origin != [] && StartsWith(origin, LocalhostPrefix) then true
    else if origin != [] && MatchesPagesDev(origin) then true
    else if origin in Split(allowedOrigins, ',') then true
    else baseAllows
  }

  /** Every `https://<host>.pages.dev` origin whose host has no line break is let
      through, with or without one trailing newline, whatever the configuration. */
  lemma PagesDevAllowed(host: string, trailingNewline: bool, allowedOrigins: string, baseAllows: bool)
    requires '\n' !in host
    ensures IsAllowedOrigin(HttpsScheme + host + PagesSuffix + (if trailingNewline then "\n" else ""),
                            allowedOrigins, baseAllows)
  {
    var core := HttpsScheme + host + PagesSuffix;
    var origin := core + (if trailingNewline then "\n" else "");
    assert Core(origin) == core by {
      assert origin[..|core|] == core;
    }
    assert core[..|HttpsScheme|] == HttpsScheme;
    assert core[|core| - |PagesSuffix|..] == PagesSuffix;
    assert PagesHost(origin) == host;
    assert MatchesPagesDev(origin);
  }

  /** Conversely, the Pages clause admits nothing but such origins. */
  lemma PagesDevOnly(origin: string)
    requires MatchesPagesDev(origin)
    ensures '\n' !in PagesHost(origin)
    ensures origin == HttpsScheme + PagesHost(origin) + PagesSuffix
                      + (if Core(origin) != origin then "\n" else "")
  {
    var core := Core(origin);
    assert core == HttpsScheme + PagesHost(origin) + PagesSuffix;
    assert origin == core + (if core != origin then "\n" else "");
  }

  /** With `ALLOWED_ORIGINS` unset the list is `[""]`, so an empty origin is let
      through; any other origin outside localhost and Pages gets the base verdict. */
  lemma UnsetListAdmitsOnlyEmpty(origin: string, baseAllows: bool)
    requires !StartsWith(origin, LocalhostPrefix) && !MatchesPagesDev(origin)
    ensures IsAllowedOrigin(origin, "", baseAllows) == (origin == "" || baseAllows)
  {
    assert Split("", ',') == [""];
  }
}
