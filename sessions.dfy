/** The event switch of `handleSSEEvent` (frontend/app/components/DebateUI.tsx):
    per-debater in-progress text and round label, their rendered mirrors, the
    append-only log of finalized messages, and the status line. The functions
    here are the specification that the component's class implements. */
module Sessions {
  import opened Events

  /** A finalized speech: `{node, text, roundInfo}`. */
  datatype Message = Message(node: Node, text: string, roundInfo: string)

  /** The state one event can change: `textBuffer` and `roundInfo` are the ref
      dictionaries, `currentText` and `currentRound` their rendered mirrors. */
  datatype Session = Session(
    textBuffer: map<Node, string>,
    roundInfo: map<Node, string>,
    currentText: map<Node, string>,
    currentRound: map<Node, string>,
    messages: seq<Message>,
    status: string)

  const ErrorPrefix: string := "❌ 錯誤："

  /** `m[n] || ""`: a missing entry reads as the empty text. */
  function Lookup(m: map<Node, string>, n: Node): string {
    if n in m then m[n] else ""
  }

  /** The four per-debater entries of `n` agree in `a` and `b`. */
  predicate SameEntries(a: Session, b: Session, n: Node) {
    && Lookup(a.textBuffer, n) == Lookup(b.textBuffer, n)
    && Lookup(a.roundInfo, n) == Lookup(b.roundInfo, n)
    && Lookup(a.currentText, n) == Lookup(b.currentText, n)
    && Lookup(a.currentRound, n) == Lookup(b.currentRound, n)
  }

  /** One event, as the switch of `handleSSEEvent` applies it. */
  function Dispatch(s: Session, e: Event): (r: Session)
    // events about one debater never touch the other's entries
    ensures forall n :: !About(e, n) ==> SameEntries(r, s, n)
    // only speaker_end appends, exactly one message, keeping the earlier ones
    ensures e.SpeakerEnd? ==> r.messages == s.messages + [Message(e.node, Lookup(s.textBuffer, e.node), Lookup(s.roundInfo, e.node))]
    ensures !e.SpeakerEnd? ==> r.messages == s.messages
    ensures e.SpeakerEnd? ==> Lookup(r.textBuffer, e.node) == Lookup(r.roundInfo, e.node) == ""
    ensures e.SpeakerEnd? ==> Lookup(r.currentText, e.node) == Lookup(r.currentRound, e.node) == ""
    // speaker empties the buffer and sets both labels, but leaves the rendered text alone
    ensures e.Speaker? ==> Lookup(r.textBuffer, e.node) == "" && Lookup(r.currentText, e.node) == Lookup(s.currentText, e.node)
    ensures e.Speaker? ==> Lookup(r.roundInfo, e.node) == Lookup(r.currentRound, e.node) == e.text
    // token extends the buffer and copies it to the rendered text
    ensures e.Token? ==> Lookup(r.textBuffer, e.node) == Lookup(s.textBuffer, e.node) + e.text == Lookup(r.currentText, e.node)
    ensures e.Token? ==> r.roundInfo == s.roundInfo && r.currentRound == s.currentRound
    // status, complete and error only replace the status line
    ensures e.Status? || e.Complete? || e.Error? ==> r == s.(status := r.status)
    ensures e.Status? || e.Complete? ==> r.status == e.text
    ensures e.Error? ==> r.status == ErrorPrefix + e.text
    ensures !(e.Status? || e.Complete? || e.Error?) ==> r.status == s.status
  {
    match e
    case Status(t) => s.(status := t)
    case Speaker(n, round) =>
      s.(textBuffer := s.textBuffer[n := ""],
         roundInfo := s.roundInfo[n := round],
         currentRound := s.currentRound[n := round])
    case Token(n, t) =>
      var text := Lookup(s.textBuffer, n) + t;
      s.(textBuffer := s.textBuffer[n := text], currentText := s.currentText[n := text])
    case SpeakerEnd(n) =>
      s.(messages := s.messages + [Message(n, Lookup(s.textBuffer, n), Lookup(s.roundInfo, n))],
         textBuffer := s.textBuffer[n := ""],
         roundInfo := s.roundInfo[n := ""],
         currentText := s.currentText[n := ""],
         currentRound := s.currentRound[n := ""])
    case Complete(t) => s.(status := t)
    case Error(t) => s.(status := ErrorPrefix + t)
  }

  /** Events applied one after another, in arrival order. */
  function DispatchAll(s: Session, es: seq<Event>): (r: Session)
    ensures |s.messages| <= |r.messages| <= |s.messages| + |es|
    decreases |es|
  {
    if es == [] then s else Dispatch(DispatchAll(s, es[..|es| - 1]), es[|es| - 1])
  }

  lemma {:induction false} DispatchAllAppend(s: Session, a: seq<Event>, b: seq<Event>)
    ensures DispatchAll(s, a + b) == DispatchAll(DispatchAll(s, a), b)
    decreases |b|
  {
    if b == [] {
      assert a + b == a;
    } else {
      assert (a + b)[..|a + b| - 1] == a + b[..|b| - 1];
      DispatchAllAppend(s, a, b[..|b| - 1]);
    }
  }

  /** The concatenated token texts for `n` after its last speaker or speaker_end in `es`. */
  function TokensSince(es: seq<Event>, n: Node): string
    decreases |es|
  {
    if es == [] then ""
    else
      var e := es[|es| - 1];
      if Resets(e, n) then ""
      else if e.Token? && e.node == n then TokensSince(es[..|es| - 1], n) + e.text
      else TokensSince(es[..|es| - 1], n)
  }

  /** The round label `n` holds after `es`, if some event of `es` set it:
      the label of a latest speaker, or "" after a latest speaker_end. */
  function LabelSince(es: seq<Event>, n: Node): Option<string>
    decreases |es|
  {
    if es == [] then None
    else
      var e := es[|es| - 1];
      if e.Speaker? && e.node == n then Some(e.text)
      else if e == SpeakerEnd(n) then Some("")
      else LabelSince(es[..|es| - 1], n)
  }

  /** Some event of `es` restarted the in-progress text of `n`. */
  predicate ResetIn(es: seq<Event>, n: Node)
    decreases |es|
  {
    es != [] && (Resets(es[|es| - 1], n) || ResetIn(es[..|es| - 1], n))
  }

  /** The in-progress text of `n` is what it was, or "" after a reset, followed by
      every token text for `n` since, in order; events for the other debater and
      status events play no part. The round label is the latest one set. */
  lemma {:induction false} EntriesAfter(s: Session, es: seq<Event>, n: Node)
    ensures Entries(s, es, n)
    decreases |es|
  {
    if es != [] {
      EntriesAfter(s, es[..|es| - 1], n);
      EntriesStep(s, es, n);
    }
  }

  /** The in-progress text and round label of `n` after `es`, as `EntriesAfter` gives them. */
  predicate Entries(s: Session, es: seq<Event>, n: Node) {
    && Lookup(DispatchAll(s, es).textBuffer, n)
       == (if ResetIn(es, n) then "" else Lookup(s.textBuffer, n)) + TokensSince(es, n)
    && Lookup(DispatchAll(s, es).roundInfo, n)
       == match LabelSince(es, n) case Some(l) => l case None => Lookup(s.roundInfo, n)
  }

  /** One more event keeps `Entries`. */
  lemma EntriesStep(s: Session, es: seq<Event>, n: Node)
    requires es != [] && Entries(s, es[..|es| - 1], n)
    ensures Entries(s, es, n)
  {
    var e := es[|es| - 1];
    if !About(e, n) {
      OtherEventStep(s, es, n);
    } else if e.Token? {
      TokenStep(s, es, n);
    }
  }

  /** An event that is not about `n` leaves its entries and what the model says of them. */
  lemma OtherEventStep(s: Session, es: seq<Event>, n: Node)
    requires es != [] && !About(es[|es| - 1], n) && Entries(s, es[..|es| - 1], n)
    ensures Entries(s, es, n)
  {
    var init, e := es[..|es| - 1], es[|es| - 1];
    assert SameEntries(Dispatch(DispatchAll(s, init), e), DispatchAll(s, init), n);
  }

  /** A token for `n` appends its text. */
  lemma TokenStep(s: Session, es: seq<Event>, n: Node)
    requires es != [] && es[|es| - 1].Token? && es[|es| - 1].node == n && Entries(s, es[..|es| - 1], n)
    ensures Entries(s, es, n)
  {
    var init, e := es[..|es| - 1], es[|es| - 1];
    var pre := if ResetIn(init, n) then "" else Lookup(s.textBuffer, n);
    assert pre + TokensSince(init, n) + e.text == pre + (TokensSince(init, n) + e.text);
  }

  /** speaker_end finalizes exactly the tokens since the debater's latest speaker:
      starting from an empty buffer, the appended message carries the in-order
      concatenation of its token texts and its latest round label. */
  lemma FinalizedMessage(s: Session, es: seq<Event>, n: Node)
    requires Lookup(s.textBuffer, n) == ""
    ensures var r := DispatchAll(s, es + [SpeakerEnd(n)]);
            |r.messages| >= 1 && r.messages[|r.messages| - 1] == Message(n, TokensSince(es, n),
              match LabelSince(es, n) case Some(l) => l case None => Lookup(s.roundInfo, n))
  {
    EntriesAfter(s, es, n);
    assert (es + [SpeakerEnd(n)])[..|es|] == es;
  }

  /** The node of every message, in order. */
  function Speakers(ms: seq<Message>): seq<Node>
    decreases |ms|
  {
    if ms == [] then [] else Speakers(ms[..|ms| - 1]) + [ms[|ms| - 1].node]
  }

  /** The debaters that `es` ends a speech for, in order. */
  function Ended(es: seq<Event>): seq<Node>
    decreases |es|
  {
    if es == [] then []
    else
      var e := es[|es| - 1];
      Ended(es[..|es| - 1]) + (if e.SpeakerEnd? then [e.node] else [])
  }

  /** The log is append-only: earlier messages stay, in place, and one message is
      added per speaker_end, in event order; text that no speaker_end finalized is
      never promoted to the log. */
  lemma {:induction false} MessagesAppendOnly(s: Session, es: seq<Event>)
    ensures s.messages <= DispatchAll(s, es).messages
    ensures Speakers(DispatchAll(s, es).messages) == Speakers(s.messages) + Ended(es)
    decreases |es|
  {
    if es != [] {
      var init, e := es[..|es| - 1], es[|es| - 1];
      MessagesAppendOnly(s, init);
      var before := DispatchAll(s, init);
      if e.SpeakerEnd? {
        var m := Message(e.node, Lookup(before.textBuffer, e.node), Lookup(before.roundInfo, e.node));
        assert (before.messages + [m])[..|before.messages|] == before.messages;
      }
    }
  }
}
