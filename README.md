# DebateAI streaming core, in Dafny

DebateAI stages a debate between two AI debaters, the optimist and the
skeptic. The backend streams the debate to the browser as server-sent events
(SSE). This project models the path those events take, end to end:

- **Backend** (`backend.dfy`): the scripted generator `fake_debate_stream`. It
  yields two statuses, then per round a `speaker` event, one `token` per
  character and a `speaker_end` for each debater, then `complete`. The project
  also covers the default of `max_rounds` and the origin test of the CORS
  middleware.
- **JSON** (`json.dfy`): Python's `json.dumps` with its defaults. These are
  `ensure_ascii`, the `", "` and `": "` separators, `\uXXXX` escapes and
  surrogate pairs. It also holds a reader for the objects the backend writes,
  standing in for the browser's `JSON.parse`.
- **SSE framing** (`sse.dfy`): the client's line splitter in `streamDebate`.
  It appends each chunk to a buffer, splits the buffer on `\n` and keeps the
  last piece. It forwards `data: ` lines whose payload parses and skips the
  rest. At the end of the stream it tries the remaining buffer once.
- **The `streamDebate` function** (`api.dfy`): the HTTP status and body
  checks, the read loop, and how a thrown error is reported as an event and
  rethrown.
- **Session state** (`sessions.dfy`): the event handler `handleSSEEvent`,
  taken on its own. It covers the per-debater text buffer and round label,
  the displayed copies, the append-only message log and the status line.
- **The `DebateUI` component** (`component.dfy`):
  - `startDebate`, `stopDebate` and `clearAllBuffers`;
  - the 30-second connection timeout, which is cleared by the first event;
  - cold-start timing, which records the connection time only when it
    exceeds 3 seconds;
  - the `finally` of `startDebate`.

  The pure functions specify the component. The class `DebateUI` holds the
  same state in mutable fields, and each of its methods is proved to equal
  the corresponding function.
- **End to end** (`end_to_end.dfy`): the backend's frames, cut into chunks at
  arbitrary points and fed to the client, decode to exactly the events the
  generator yielded. Dispatched into the component, they leave every speech
  in the log in order, under its round label, with the closing status.

JavaScript's and Python's `split` always return at least one piece. The
model `Text.Split` keeps that behaviour, which makes both the `lines.pop()`
of the client and the `ALLOWED_ORIGINS` list of the backend come out right.

## Model

| member | source | states |
|---|---|---|
| Text.Split | frontend/app/lib/api.ts:70 | splitting always yields at least one piece |
| Text.SplitJoin | frontend/app/lib/api.ts:70-71 | joining the pieces of a split with the separator gives back the text |
| Text.JoinSplit | frontend/app/lib/api.ts:70-71 | pieces free of the separator are recovered by splitting their join |
| Text.SplitPieces | frontend/app/lib/api.ts:70 | no piece of a split contains the separator |
| Text.SplitPrefix | frontend/app/lib/api.ts:70-71 | a separator-free prefix joins the first piece of what follows; the other pieces are unchanged |
| Text.SplitAppend | frontend/app/lib/api.ts:67-71 | splitting a concatenation merges the last piece of the first part with the first piece of the second |
| Text.NatToString | frontend/app/lib/api.ts:47 | the decimal rendering of a number is all digits and canonical (no leading zero except "0" itself), and starts with '0' exactly when the number is 0 |
| Text.NatToStringValue | frontend/app/lib/api.ts:47 | the digits written for n spell n |
| Text.CanonicalIsNatToString | frontend/app/lib/api.ts:47 | every canonical digit string is the rendering of its value, so the rendering of n is the one canonical numeral of n |
| Text.CanonicalUnique | backend/app/main.py:70 | two canonical digit strings with the same value are equal |
| Text.IntToString | backend/app/main.py:70 | `str(i)`: canonical digits spelling i when i >= 0; otherwise a minus sign, then canonical digits (not starting with '0') spelling -i |
| Sse.IsDataLine | frontend/app/lib/api.ts:74 | a line is a data line when it starts with `data: ` (no contract of its own) |
| Sse.Payload | frontend/app/lib/api.ts:76 | the data line is `data: ` followed by the payload |
| Sse.LineEvent | frontend/app/lib/api.ts:73-82 | a line gives at most one event, present iff it is a data line whose payload parses, and equal to that parse |
| Sse.LineEventsAppend | frontend/app/lib/api.ts:73-82 | the events of two runs of lines are the events of each, in order |
| Sse.OnlyDataLinesCount | frontend/app/lib/api.ts:74 | lines not starting with `data: ` contribute no event |
| Sse.EveryDataLineAccounted | frontend/app/lib/api.ts:74-80 | the events plus the lines logged as malformed number exactly the `data: ` lines, so a parse failure does not stop later lines |
| Sse.CompleteLines | frontend/app/lib/api.ts:70-71 | the newline-terminated lines of the buffer: none holds a newline, and joined with the kept tail they give the buffer back |
| Sse.Pending | frontend/app/lib/api.ts:71 | the piece `lines.pop()` keeps (no contract of its own; `PendingIsTextAfterLastNewline` gives its meaning) |
| Sse.LineEvents | frontend/app/lib/api.ts:73-82 | the events of a run of lines: at most one per line, none for no lines |
| Sse.Malformed | frontend/app/lib/api.ts:78-80 | the lines logged as unparseable: at most one per line, each a data line of the run whose payload fails to parse |
| Sse.Concat | frontend/app/lib/api.ts:59-67 | the text the transport delivered: it starts with the first chunk and ends with the last, and is empty exactly when every chunk is |
| Sse.DecodeText | frontend/app/lib/api.ts:59-93 | the events of a whole text: at most one per complete line plus one for the tail (`ChunkBoundaryInvariance` shows every chunking decodes to it) |
| Sse.PendingIsTextAfterLastNewline | frontend/app/lib/api.ts:70-71 | the kept buffer holds no newline and is exactly the text after the last newline |
| Sse.FeedStep | frontend/app/lib/api.ts:67-71 | feeding a chunk to the kept buffer releases the same complete lines as feeding it to all text so far |
| Sse.LineDecoder.constructor | frontend/app/lib/api.ts:57 | the buffer starts empty |
| Sse.LineDecoder.Feed | frontend/app/lib/api.ts:67-82 | the new buffer is the text after the last newline; the events and malformed lines are those of every completed line |
| Sse.LineDecoder.Finish | frontend/app/lib/api.ts:85-93 | at most one event, present iff the leftover buffer is a `data: ` line whose payload parses |
| Sse.Buffered | frontend/app/lib/api.ts:67-71 | the buffer kept after each chunk never holds a newline |
| Sse.LinesSeen | frontend/app/lib/api.ts:67-73 | the lines examined, chunk after chunk (no contract of its own; `LinesSeenAreCompleteLines` gives their meaning) |
| Sse.DecodeChunks | frontend/app/lib/api.ts:59-93 | the events of a chunked stream, flush included (no contract of its own; `ChunkBoundaryInvariance` gives their meaning) |
| Sse.LinesSeenAreCompleteLines | frontend/app/lib/api.ts:59-83 | after any chunk sequence the lines seen are the complete lines of the concatenated text and the buffer is its tail |
| Sse.ChunkBoundaryInvariance | frontend/app/lib/api.ts:59-93 | two chunkings of the same text decode to the same events, those of the whole text |
| Api.Reported | frontend/app/lib/api.ts:94-103 | an abort is reported as the stopped status; an Error as an error event carrying its message; a thrown non-Error as an error event with `未知錯誤` |
| Api.HttpErrorMessage | frontend/app/lib/api.ts:46-48 | the message is `HTTP `, the canonical decimal digits of the status, `: ` and the status text |
| Api.EarlyFailure | frontend/app/lib/api.ts:38-52 | nothing is thrown before reading iff the response is OK with a body; otherwise the fetch rejection, the HTTP error or the null-body error |
| Api.StreamOutcome | frontend/app/lib/api.ts:31-106 | a failed request reports exactly its failure and rethrows it; once streaming, the read's failure is what is rethrown, after the events of the lines completed so far and its report; a clean stream reports the decoded events and throws nothing |
| Api.BadResponseReportsOneError | frontend/app/lib/api.ts:46-52 | a non-OK response or a missing body yields exactly one error event with the thrown message, and that error is rethrown |
| Api.AbortReportedAsStopped | frontend/app/lib/api.ts:94-104 | an abort, at fetch or at a read, ends the events with the stopped status, not an error, and is rethrown |
| Api.StreamDebate | frontend/app/lib/api.ts:31-106 | the events and thrown error equal the stream outcome; a clean stream's events are the decoded chunks |
| Api.ReadChunks | frontend/app/lib/api.ts:59-83 | after the loop the decoder's buffer is the buffered tail of the chunks and the events are those of every line seen |
| Sessions.Dispatch | frontend/app/components/DebateUI.tsx:81-146 | an event touches only its own debater; speaker resets the buffer and sets the label; token extends the buffer and display; speaker_end logs one message and clears four entries; status, complete and error set only the status |
| Sessions.DispatchAll | frontend/app/components/DebateUI.tsx:81-146 | events handled one after another: the log never shrinks and grows by at most one message per event |
| Sessions.DispatchAllAppend | frontend/app/components/DebateUI.tsx:81-146 | handling two event runs in turn equals handling their concatenation |
| Sessions.EntriesAfter | frontend/app/components/DebateUI.tsx:104-121 | a debater's buffer is its tokens since its last reset, and its label is the latest one set |
| Sessions.FinalizedMessage | frontend/app/components/DebateUI.tsx:123-130 | from an empty buffer, speaker_end logs the debater's tokens since its latest speaker or speaker_end (or since the start), under the latest label set |
| Sessions.MessagesAppendOnly | frontend/app/components/DebateUI.tsx:127-130 | the message log only grows, one entry per speaker_end, in order |
| Component.ClearAll | frontend/app/components/DebateUI.tsx:71-76 | all four per-debater entries read empty; log and status are kept |
| Component.Start | frontend/app/components/DebateUI.tsx:151-173 | streaming with the timer armed, cleared buffers, empty log, connecting status, no connection time, start time recorded |
| Component.Latch | frontend/app/components/DebateUI.tsx:82-97 | only the first event disarms the timer; the connection time is recorded only then and only when over 3000 ms |
| Component.Receive | frontend/app/components/DebateUI.tsx:81-146 | the session is the event switch applied to the old one; the first event is latched; streaming, abort and start time are kept; a consistent state stays consistent with the timer cleared; the timer and the cold-start connection time are those the first-event latch sets |
| Component.Tick | frontend/app/components/DebateUI.tsx:168-173 | the timer fires at 30000 ms after the start and aborts with the timeout status only if no event came; before the deadline or with no timer armed nothing changes; otherwise nothing but the timer, the abort flag and the status changes |
| Component.Step | frontend/app/components/DebateUI.tsx:151-212 | one input (start, delivered event, clock, settle, stop) applied to the component: it keeps the timer invariant, a delivered event latches and is dispatched, settling or stopping ends streaming with the timer cleared |
| Component.Run | frontend/app/components/DebateUI.tsx:151-212 | inputs applied in order (no contract of its own; `RunAppend` and `RunKeepsConsistent` give its meaning) |
| Component.Settle | frontend/app/components/DebateUI.tsx:175-192 | streaming ends and the timer is cleared; a non-abort error sets the failure status; otherwise the status stays; nothing else changes |
| Component.Stop | frontend/app/components/DebateUI.tsx:198-212 | aborts, clears the timer and all buffers, stops streaming, sets the stopped status and keeps the log; the connection refs are kept |
| Component.RunAppend | frontend/app/components/DebateUI.tsx:81-212 | running two input runs in turn equals running their concatenation |
| Component.RunKeepsConsistent | frontend/app/components/DebateUI.tsx:81-212 | an armed timer always means streaming, no event yet and not aborted, whatever the inputs |
| Component.NoTimeoutAfterFirstEvent | frontend/app/components/DebateUI.tsx:82-91 | after the first event no later input of the session aborts the stream or re-arms the timer |
| Component.Ticks | frontend/app/components/DebateUI.tsx:168 | the i-th input is the clock reading times[i] |
| Component.TimeoutIffDeadline | frontend/app/components/DebateUI.tsx:168-173 | with no events, the stream is aborted iff some clock time reaches the start plus 30000 ms |
| Component.Deliveries | frontend/app/components/DebateUI.tsx:176-179 | the i-th input delivers the i-th event at the i-th time |
| Component.RunDeliveries | frontend/app/components/DebateUI.tsx:81-146 | delivering events applies the handler to each in order, leaves streaming and abort alone and disarms the timer |
| Component.StartDeliverSettle | frontend/app/components/DebateUI.tsx:151-192 | a started debate whose stream ends cleanly holds the handled events, is not streaming, not armed and not aborted |
| Component.TimeoutStatusIsOverwritten | frontend/app/components/DebateUI.tsx:168-192 | after a timeout the abort is reported as an event, so the timeout status is replaced by the stopped status |
| Component.FailureStatusWins | frontend/app/components/DebateUI.tsx:181-184 | a failure's error event is overwritten by the connection-failure status |
| Component.DebateUI.constructor | frontend/app/components/DebateUI.tsx:37-59 | the initial state |
| Component.DebateUI.ClearAllBuffers | frontend/app/components/DebateUI.tsx:71-76 | the fields equal the clear-all function of the old state |
| Component.DebateUI.HandleSSEEvent | frontend/app/components/DebateUI.tsx:81-146 | the fields equal the receive function of the old state |
| Component.DebateUI.LatchFirstEvent | frontend/app/components/DebateUI.tsx:82-97 | the fields equal the latch function of the old state |
| Component.DebateUI.ApplyEvent | frontend/app/components/DebateUI.tsx:99-145 | the session fields equal the dispatch function of the old session; the lifecycle fields are kept |
| Component.DebateUI.BeginSpeech | frontend/app/components/DebateUI.tsx:104-111 | the session fields equal the dispatch of a speaker event; nothing else changes |
| Component.DebateUI.AppendToken | frontend/app/components/DebateUI.tsx:113-121 | the session fields equal the dispatch of a token event; nothing else changes |
| Component.DebateUI.FinishSpeech | frontend/app/components/DebateUI.tsx:123-136 | the session fields equal the dispatch of a speaker_end event; nothing else changes |
| Component.DebateUI.StartDebate | frontend/app/components/DebateUI.tsx:151-173 | the fields equal the start function of the old state |
| Component.DebateUI.ResetView | frontend/app/components/DebateUI.tsx:153-156 | streaming, an empty log, cleared buffers and the connecting status; the lifecycle refs are kept |
| Component.DebateUI.ArmConnectTimer | frontend/app/components/DebateUI.tsx:157-173 | no connection time, the start time recorded, the latch reopened, not aborted, the timer armed; the session is kept |
| Component.DebateUI.ConnectTimeout | frontend/app/components/DebateUI.tsx:168-173 | the fields equal the tick function of the old state |
| Component.DebateUI.SettleDebate | frontend/app/components/DebateUI.tsx:181-192 | the fields equal the settle function of the old state |
| Component.DebateUI.StopDebate | frontend/app/components/DebateUI.tsx:198-212 | the fields equal the stop function of the old state |
| Json.Hex | backend/app/main.py:78 | a rendering of exactly w printable ASCII characters; `HexRoundTrip` gives their value |
| Json.DigitValue | backend/app/main.py:78 | a hex digit's value is below 16 |
| Json.HexValue | backend/app/main.py:78 | reading w hex digits yields a value below 16^w |
| Json.DigitRoundTrip | backend/app/main.py:78 | reading a written hex digit gives its value |
| Json.HexRoundTrip | backend/app/main.py:78 | reading a written fixed-width hex number gives the number |
| Json.PrintableAppend | backend/app/main.py:61-100 | printable ASCII is closed under concatenation |
| Json.ShortEscape | backend/app/main.py:78 | the letter of a two-character escape is printable ASCII |
| Json.EscapeChar | backend/app/main.py:78 | each character escapes to non-empty printable ASCII |
| Json.UnicodeEscape | backend/app/main.py:78 | a `\u` escape is six printable characters |
| Json.Escape | backend/app/main.py:61-100 | an escaped string is printable ASCII, so it has no newline |
| Json.Quote | backend/app/main.py:61-100 | a quoted string is printable ASCII |
| Json.Member | backend/app/main.py:61-100 | a key-value member is printable ASCII |
| Json.Object | backend/app/main.py:61-100 | an object is printable ASCII |
| Json.Members | backend/app/main.py:61-100 | a member list is printable ASCII |
| Json.ReadChar | frontend/app/lib/api.ts:76 | reading one character of a JSON string consumes at least one input character and no more than there are |
| Json.CodeUnit | frontend/app/lib/api.ts:76 | a `\u` escape reads as a 16-bit code unit |
| Json.Combine | frontend/app/lib/api.ts:76 | a surrogate pair combines into a code point above U+FFFF |
| Json.ReadUnicodeEscape | frontend/app/lib/api.ts:76 | a `\u` escape consumes 6 characters, or 12 for a surrogate pair |
| Json.ReadString | frontend/app/lib/api.ts:76 | a string read leaves strictly less input than it was given |
| Json.ReadMember | frontend/app/lib/api.ts:76 | a member read leaves strictly less input than it was given |
| Json.ReadMembers | frontend/app/lib/api.ts:76 | a member list that reads holds at least one member |
| Json.ShortEscapeInverts | backend/app/main.py:78 | a two-character escape reads back as its character |
| Json.ReadWrittenCodeUnit | backend/app/main.py:78 | a written code unit reads back |
| Json.SurrogatesOf | backend/app/main.py:78 | the surrogate pair of a code point above U+FFFF combines back to it |
| Json.ReadWrittenSurrogatePair | backend/app/main.py:78 | a written surrogate pair reads back as its character |
| Json.ReadEscapedChar | backend/app/main.py:78 | every escaped character reads back as itself |
| Json.ReadQuoted | backend/app/main.py:61-100 | an escaped string followed by a quote reads back as the string, leaving the rest |
| Json.ReadWrittenMember | backend/app/main.py:61-100 | a written member reads back as its key and value |
| Json.ReadWrittenMembers | backend/app/main.py:61-100 | a written member list reads back as the list |
| Json.ReadObject | frontend/app/lib/api.ts:76 | `JSON.parse` of a flat object: a parse succeeds only on text starting with `{` and yields at least one member |
| Json.ReadWrittenObject | backend/app/main.py:61-100 | a written object reads back as its member list |
| Backend.RoundLabel | backend/app/main.py:70 | the label is `第 `, the round as `str` renders it, and ` 輪` |
| Backend.CompleteText | backend/app/main.py:100 | the closing status holds `max_rounds` as given, between the fixed prefix and suffix |
| Backend.RoundCount | backend/app/main.py:68 | `range(1, max_rounds + 1)` runs max_rounds rounds, none when it is not positive (no contract of its own) |
| Backend.Request | backend/app/main.py:41-43 | a missing `max_rounds` defaults to 3; a given one is kept |
| Backend.TokenEvents | backend/app/main.py:77-79 | as many token events as the speech has characters |
| Backend.TokenEventsAt | backend/app/main.py:77-79 | the i-th token event is the debater's i-th character, so the tokens follow the speech in order |
| Backend.DebateEvents | backend/app/main.py:48-100 | two statuses first, the completion last; with no rounds exactly those three events |
| Backend.NodeName | backend/app/main.py:70-96 | the `node` strings: "optimist" exactly for the optimist, "skeptic" exactly for the skeptic |
| Backend.NodeNamed | backend/app/main.py:70 | a recognised node name names that node |
| Backend.EventMembers | backend/app/main.py:61-100 | every event dict has `type` as its first key and at least one more key |
| Backend.EventOf | frontend/app/lib/api.ts:76 | a member list is taken for an event only when it is exactly that event's dict, the converse of `EventOfMembers` |
| Backend.ParseEvent | frontend/app/lib/api.ts:76 | a payload parses to an event only when it reads as a JSON object whose members are that event's dict |
| Backend.EventJson | backend/app/main.py:61-100 | the serialized event is printable ASCII |
| Backend.ParseEventInverts | backend/app/main.py:61-100 | every event the backend serializes reads back as itself |
| Backend.EventOfMembers | backend/app/main.py:61-100 | every event's dict describes that event |
| Backend.Frame | backend/app/main.py:61-100 | a frame is a `data: ` line carrying the event's JSON, then `\n\n` |
| Backend.Frames | backend/app/main.py:61-100 | the body is empty iff there are no events |
| Backend.FramesAppend | backend/app/main.py:61-100 | the body of two event runs is the first's body followed by the second's, frame by frame in yield order |
| Backend.Quoting | backend/app/main.py:73 | the f-string around `{topic}`: the text before, the topic between corner brackets, and the text after |
| Backend.OptimistOpening | backend/app/main.py:73 | the optimist's opening quotes the topic, as given, between its fixed lead and tail |
| Backend.OptimistRebuttal | backend/app/main.py:75 | the optimist's rebuttal quotes the topic between its fixed lead and tail |
| Backend.SkepticOpening | backend/app/main.py:88 | the skeptic's opening quotes the topic between its fixed lead and tail |
| Backend.SkepticRebuttal | backend/app/main.py:90 | the skeptic's rebuttal quotes the topic between its fixed lead and tail |
| Backend.Script | backend/app/main.py:73-75 | the four speeches of a debate on a topic, each quoting the topic between its own lead and tail |
| Backend.OptimistText | backend/app/main.py:73-75 | the optimist speaks its opening in round 1 and its rebuttal in every later round |
| Backend.SkepticText | backend/app/main.py:88-90 | the skeptic speaks its opening in round 1 and its rebuttal in every later round |
| Backend.Turn | backend/app/main.py:70-81 | one turn is |text| + 2 events, all about the debater: speaker with the label, a token for the i-th character at position i + 1, speaker_end |
| Backend.RoundEvents | backend/app/main.py:69-97 | one round: the optimist's speaker first, its speaker_end right after its tokens, the skeptic's speaker next, its speaker_end last |
| Backend.Rounds | backend/app/main.py:68-97 | rounds 1 to k: at least four events per round, empty exactly when k = 0, opening on the optimist's round-1 speaker and closing on the skeptic's speaker_end |
| Backend.EmitTurn | backend/app/main.py:70-81 | the events of one turn: speaker, its tokens, speaker_end |
| Backend.FakeDebateStream | backend/app/main.py:48-100 | the yielded events are the debate's events |
| Backend.RoundsStep | backend/app/main.py:68-97 | one more round appends the optimist's turn, then the skeptic's |
| Backend.Transcript | backend/app/main.py:68-97 | a debate of k rounds logs 2k messages |
| Backend.TypedOut | backend/app/main.py:77-79 | a speech's tokens extend that debater's buffer by the speech and change nothing a turn's end reads |
| Backend.TurnMessage | backend/app/main.py:70-81 | one turn logs exactly its speech under the round label |
| Backend.RoundMessages | backend/app/main.py:68-97 | one round logs the optimist's speech and then the skeptic's |
| Backend.TwoTurns | backend/app/main.py:70-96 | two turns under one round label log the first speech, then the second, and leave the status alone |
| Backend.RoundsTranscriptStep | backend/app/main.py:68-97 | if rounds 1 to k-1 log the transcript of k-1 rounds, rounds 1 to k log that of k |
| Backend.RoundsTranscript | backend/app/main.py:68-97 | rounds 1 to k log the transcript and leave the status alone |
| Backend.OpeningEffect | backend/app/main.py:61-65 | the opening statuses log nothing and leave the ready status |
| Backend.ScriptTranscript | backend/app/main.py:48-100 | for any speeches, the opening statuses, k rounds and a completion log the k-round transcript and end on the completion text |
| Backend.DebateTranscript | backend/app/main.py:48-100 | the whole debate appends every speech in order and ends on the completion status |
| Backend.DefaultDebateLength | backend/app/main.py:41-43 | a debate with the default of three rounds logs six messages |
| Backend.TokensSpellText | backend/app/main.py:77-79 | the tokens of a speech concatenate to the speech |
| Backend.Core | backend/app/main.py:22 | the origin without the one trailing newline that `$` may skip, otherwise the origin itself |
| Backend.PagesHost | backend/app/main.py:22 | an origin with the scheme and the suffix is the scheme, the host and the suffix |
| Backend.MatchesPagesDev | backend/app/main.py:22 | the pattern's match (no contract of its own; `PagesDevAllowed` and `PagesDevOnly` give both directions) |
| Backend.IsAllowedOrigin | backend/app/main.py:17-28 | localhost and Pages origins are allowed; otherwise allowed iff listed in `ALLOWED_ORIGINS` or allowed by the base middleware |
| Backend.PagesDevAllowed | backend/app/main.py:22-23 | every `https://<host>.pages.dev` origin with a host free of line breaks is allowed, with or without one trailing newline |
| Backend.PagesDevOnly | backend/app/main.py:22 | an origin the Pages pattern matches has exactly that shape |
| Backend.UnsetListAdmitsOnlyEmpty | backend/app/main.py:25-28 | with `ALLOWED_ORIGINS` unset only the empty origin is listed |
| EndToEnd.Payloads | backend/app/main.py:61-100 | one payload per event |
| EndToEnd.FrameSplit | backend/app/main.py:61 | a frame splits into its data line and two empty pieces |
| EndToEnd.BodyIsLines | frontend/app/lib/api.ts:67-71 | a body of one-line frames splits into those lines and blank lines, with nothing pending |
| EndToEnd.BodyLinesDecode | frontend/app/lib/api.ts:73-82 | those lines decode to the events their payloads parse to |
| EndToEnd.FrameLineEvents | frontend/app/lib/api.ts:73-82 | a frame's data line and blank line yield exactly its payload's event |
| EndToEnd.FramesAreBody | backend/app/main.py:61-100 | the stream body is the concatenation of one frame per payload |
| EndToEnd.PayloadAt | backend/app/main.py:61-100 | the i-th payload is the i-th event's JSON |
| EndToEnd.PayloadsOneLine | backend/app/main.py:61-100 | no payload contains a newline |
| EndToEnd.OneLineJson | backend/app/main.py:61-100 | an event's JSON has no newline |
| EndToEnd.DecodeFrames | frontend/app/lib/api.ts:59-93 | the client decodes the backend's body to exactly the yielded events |
| EndToEnd.JsonReaderReadsBack | frontend/app/lib/api.ts:76 | the JSON reader reads every backend event back |
| EndToEnd.DebateEndToEnd | frontend/app/lib/api.ts:31-106 | any chunking of the debate's body decodes to its events; the stream completes without error; the session logs the transcript and the completion status |
| EndToEnd.ComponentReceivesAll | frontend/app/components/DebateUI.tsx:151-192 | any events the backend writes, cut into any chunks, decode back to themselves, and the component handles them all in order and settles cleanly |
| EndToEnd.ScriptInComponent | frontend/app/components/DebateUI.tsx:151-192 | for any speeches, round count and closing text, the component ends with the transcript and the closing status, not streaming and not aborted |
| EndToEnd.DebateInComponent | frontend/app/components/DebateUI.tsx:151-192 | a debate started, streamed and settled in the component ends with the full transcript, the completion status, not streaming and not aborted |

## Left out

- `TextDecoder`: chunks are modelled as already-decoded strings. A multi-byte character split across network reads is not modelled.
- `fetch` and `AbortController` internals: the response, its chunks and how the read ends are an input (`Api.Transport`). An abort, whether from the timer or from `stopDebate`, reaches `streamDebate` as a thrown `AbortError`.
- `JSON.parse`: a parameter `Parser` of the decoder.
- Json.ReadObject: reads only flat objects of string members in json.dumps's default layout (one space after each `:` and `,`, no other whitespace). Other layouts `JSON.parse` accepts, such as `{"a":"b"}`, are rejected, as is an unpaired surrogate escape.
- The `as SSEEvent` cast is unchecked in the client. A payload of another shape, such as an unknown type or a missing field, is not modelled; the parser maps only the six event layouts.
- `console.error` on a malformed line: the decoder returns those lines instead of logging them.
- React batching and lazy state updaters: the state updates of `handleSSEEvent` are applied at once and in order. The token updater actually reads the ref when React runs it.
- Asynchronous interleaving: inputs to the component arrive one at a time, in an order given as input. A stop followed at once by a new start, while the old stream is still settling, is not modelled.
- `Date.now()`: the current time is a parameter. `setTimeout` is modelled as an armed flag and a clock input that fires at 30000 ms after the start.
- `checkHealth`, `API_URL`, the request body `{ topic, max_rounds }` sent by the client, rendering, auto-scroll, `MessageBubble`, `TopicForm` and the `system` message node are not part of this model.
- Backend.FakeDebateStream: yields the events rather than the frame strings. Each frame is `Backend.Frame` of its event, and the response body is `Backend.Frames` of the events.
- `asyncio.sleep` pauses, the FastAPI routes, `StreamingResponse` headers and pydantic validation errors are left out.
- Backend.IsAllowedOrigin: the value of `ALLOWED_ORIGINS` and the base `CORSMiddleware` verdict are inputs. The base whitelist itself is not modelled.
- Backend.DebateEvents: Python's `int` has no bound, and the model uses unbounded integers likewise. The time a huge round count takes is not modelled.
