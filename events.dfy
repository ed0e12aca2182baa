/** The event vocabulary shared by the streaming client and the server:
    the `SSEEvent` union of the frontend API module. */
module Events {

  datatype Option<+T> = None | Some(value: T)

  /** The two debaters, the `node` of speaker, token and speaker_end events. */
  datatype Node = Optimist | Skeptic

  /** One decoded server-sent event. `Speaker.text` is the round label. */
  datatype Event =
    | Status(text: string)
    | Speaker(node: Node, text: string)
    | Token(node: Node, text: string)
    | SpeakerEnd(node: Node)
    | Complete(text: string)
    | Error(text: string)

  /** True when `e` is a speaker, token or speaker_end event for debater `n`. */
  predicate About(e: Event, n: Node) {
    (e.Speaker? || e.Token? || e.SpeakerEnd?) && e.node == n
  }

  /** True when `e` starts a fresh in-progress text for `n` (speaker or speaker_end). */
  predicate Resets(e: Event, n: Node) {
    (e.Speaker? || e.SpeakerEnd?) && e.node == n
  }
}
