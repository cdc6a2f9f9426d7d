# Live transcription relay and translation history, modelled in Dafny

The system streams microphone audio from a browser to a server, relays it to a
streaming speech-recognition backend (Deepgram), sends the transcription events
back to the browser, and translates each finished utterance through a language
model (Anthropic) that sees a bounded history of earlier translations. The
server exists twice, once in Node (`server.js`) and once in Python
(`server.py`); the browser side is `src/App.js`.

This project models the three pieces of sequential logic in it:

- **The translation history** (`conversation.dfy`, `translate_js.dfy`,
  `translate_py.dfy`). `llm_history` is a sequence of `{role, content}` entries.
  A successful translation appends the user prompt `"<text> --> <language>"`
  and the model's reply, then keeps only the last 128 entries. The pure
  functions `Window` and `Append2` specify this; the lemmas prove the bound,
  the order of what survives, prefix growth below the cap, eviction of exactly
  the oldest entries above it, that user/assistant alternation is kept, and
  that any series of translations leaves the 128 most recent entries. The two
  servers' handlers are classes whose `Translate` method is tied to `Append2`,
  including every error path.
- **The relay's reconnect state machine** (`relay_js.dfy`, `relay_py.dfy`). In
  Node, each client socket holds one backend session whose readiness is 0..3
  (Connecting, Open, Closing, Closed). An audio chunk is forwarded when the
  session is Open, dropped when it is Connecting, and triggers a reconnect when
  it is Closing or Closed. The class `RelayJs.Relay` keeps every session ever
  created, each client's binding, what each client was sent, and the table of
  keepalive intervals with the single global `keepAlive` handle. Its invariant
  `Valid` states that every held session belongs to its client, that a session
  nobody holds has no listeners left, and that only the last interval armed can
  be running. The Python handler `RelayPy.DeepgramSocket` reconnects when
  `send` reports failure and forwards events only while the socket is
  CONNECTED.
- **The browser's transcript accumulator** (`client.dfy`). The socket's message
  handler is the pure reducer `Receive`. `Run` folds it over a series of
  messages and collects the translate requests that utterance ends issue. The
  lemmas prove that the displayed transcript only grows, and by exactly what
  each message commits. They also prove that, while a target language is
  selected, the texts of the requests issued followed by the pending input are
  exactly the recognised speech: nothing is lost or sent twice. The class `App`
  holds the React state and refs; its handlers are tied to `Receive` and to the
  request guard.

The speech SDK, the language-model SDK, sockets, timers and the browser's media
APIs are not modelled as code. Their results are parameters (`StreamResult`,
`CreateResult`, `sent`, `started`, `granted`, `status`). Their state changes are
environment methods (`OnBackendOpen`, `OnBackendReadiness`, `OnApplicationState`,
`OnSocketOpen`, ...) that the model's handlers react to.

Some behaviours of the code are easy to miss. The model keeps each of them as
written:

- A response with empty `content` still extends the history. In Python, the
  prompt and the empty reply are appended before `response.content[0]` raises
  `IndexError` (`TranslatePy.AnthropicTranslator.Translate`). In Node, they are
  appended after the response body has been sent as `undefined`
  (`TranslateJs.FirstText`).
- The Python server sends metadata as `str(metadata)`, not wrapped as
  `{metadata: ...}` as the Node server does.
- The Python server never removes a replaced connection's callbacks. Events
  from replaced connections still reach the client while the socket is
  CONNECTED.
- In Node there is one module-level `keepAlive` handle for the whole process,
  not one per session. A new session on any client stops the previous
  interval. A Close event on any session that still has its listeners stops
  whatever interval the handle names, even one armed for another client's
  session.
- In Node, the Close listener finishes the session only if it still reports
  Open. `OnBackendClose` models that guard. The readiness changes themselves
  are separate environment steps.
- The reply's role is always `"assistant"`: the model's reply types carry no
  role, and the history's invariant states that user and assistant entries
  alternate.

## Model

| member | source | states |
|---|---|---|
| Conversation.PromptText | server.js:119 | the prompt is the text, `" --> "`, then the language: given the text's length, the text and the language are exactly the parts before and after the separator |
| Conversation.UserPrompt | server.js:114-122 | the prompt entry has the user role and a single text block whose text is `PromptText` of the request's text and language |
| Conversation.Window | server.js:149-151 | the result is the longest suffix of the history that fits in 128 entries |
| Conversation.Append2 | server.js:144-151 | after a successful translation the history has min(old+2, 128) entries, ends with the prompt then the reply, and the older survivors are the most recent old entries in their order |
| Conversation.Append2Grows | server.js:144-151 | with at most 126 entries before, nothing is evicted and the old history is a prefix of the new one |
| Conversation.Append2Evicts | server.js:149-151 | above the cap, exactly the oldest entries are evicted |
| Conversation.AlternationPreserved | server.js:144-151 | appending a user prompt and an assistant reply and then truncating keeps the roles alternating user/assistant, because eviction removes whole pairs |
| Conversation.AlternatingPair | server.js:144-147 | appending a user prompt then an assistant reply to an alternating history keeps it alternating |
| Conversation.AlternatingSuffix | server.js:149-151 | dropping an even number of the oldest entries keeps an alternating history alternating |
| Conversation.WindowAbsorbs | server.js:149-151 | truncating after every append keeps the same entries as truncating once at the end |
| Conversation.ReplayIsWindow | server.js:144-151 | after any series of successful translations the history is the last 128 entries of everything appended |
| Conversation.ReplayKeepsMostRecent | server.js:144-151 | after 64 or more translations the history holds exactly 128 entries: the most recent ones, in order |
| TranslateJs.FirstText | server.js:142 | the response body is the first content block's text, and absent exactly when the content is empty |
| TranslateJs.TranslateServer.constructor | server.js:17 | the history starts empty |
| TranslateJs.TranslateServer.Translate | server.js:112-156 | the model is asked with the prior history plus the new prompt; a rejected stream passes the error on and leaves the history unchanged; a final message is sent back and the history becomes `Append2` of the old one with an assistant reply, so the history stays at most 128 entries and alternating |
| TranslatePy.AnthropicTranslator.constructor | server.py:93-95 | the history starts empty |
| TranslatePy.AnthropicTranslator.Translate | server.py:97-118 | the request is the prior history plus the prompt; a rate limit returns `"(Error: Rate Limit)"` and another API error is raised, both with the history unchanged; a response extends the history by `Append2` and returns the first block's text, or raises `IndexError` after extending it when the content is empty; the history stays at most 128 entries and alternating |
| TranslatePy.AnthropicTranslator.Record | server.py:113-116 | the two appends and the `[-128:]` cut leave the history equal to `Append2` of the old one, still bounded and alternating |
| RelayJs.ClearTimer | server.js:31 | clearing a handle stops exactly that interval and changes no target |
| RelayJs.Relay.constructor | server.js:17-18 | no sessions, clients or intervals yet, and the invariant holds |
| RelayJs.Relay.SetupDeepgram | server.js:20-35 | a new Connecting session with only its Open listener is created for the client; the previous interval is stopped and a new one is armed for the new session |
| RelayJs.Relay.OnConnection | server.js:79-81 | a new client is bound to a freshly created session and the invariant is kept |
| RelayJs.Relay.OnClientMessage | server.js:83-99 | Open: the chunk goes to the bound session and nothing else changes. Closing or Closed: the old session is finished and detached, a new distinct session is bound, and the chunk is dropped. Connecting: the chunk is dropped and nothing changes |
| RelayJs.Relay.Reconnect | server.js:89-95 | the dead session is finished once and loses its listeners; the client is bound to a new session whose interval is the only one running |
| RelayJs.Relay.Retire | server.js:93-94 | the dead session is finished once and loses its listeners, and nothing else changes |
| RelayJs.Relay.Rebind | server.js:95 | the client is bound to a new Connecting session, the previous interval is stopped and a new one armed for it; the invariant is kept although the old session is no longer held |
| RelayJs.Relay.OnClientClose | server.js:101-108 | the held session is finished only if Open, always loses its listeners, and the client's binding becomes null |
| RelayJs.Relay.Release | server.js:106-107 | the held session loses its listeners and the client's binding becomes null; nothing else changes |
| RelayJs.Relay.FinishSession | server.js:49-50 | `finish()` is called once more on the session and nothing else changes |
| RelayJs.Relay.StopKeepAlive | server.js:48 | the interval the global handle names is cleared, and afterwards no interval runs at all |
| RelayJs.Relay.OnBackendOpen | server.js:37-40 | the session becomes Open and gains its event listeners only if its Open listener is still attached |
| RelayJs.Relay.OnBackendReadiness | server.js:86-89 | the backend's readiness only moves forward, to Closing or Closed |
| RelayJs.Relay.OnBackendClose | server.js:46-52 | with its listeners attached, a Close stops the interval the global handle names, so no interval runs afterwards, and finishes the session only if it reports Open; without them nothing happens |
| RelayJs.Relay.OnKeepAliveTick | server.js:32-35 | the running interval always targets the newest session and sends it one keepalive |
| RelayJs.Relay.OnBackendTranscript | server.js:40-44 | a transcript reaches the session's client verbatim, and only while the session has its listeners |
| RelayJs.Relay.OnBackendMetadata | server.js:64-68 | metadata reaches the session's client wrapped as `{metadata: data}`, and only while the session has its listeners |
| RelayJs.Relay.OnBackendUtteranceEnd | server.js:70-73 | an utterance end reaches the session's client verbatim, and only while the session has its listeners |
| RelayJs.ScenarioOpens | server.js:20-40 | after a client connects and its session opens, the session has its event listeners, the client's outbox is empty, and the one interval runs |
| RelayJs.ScenarioPassThrough | server.js:64-88 | one chunk then reaches the open session and one metadata event reaches the client wrapped |
| RelayJs.ScenarioBackendCloses | server.js:46-52 | a Close event on that session stops its interval, and the session keeps its audio and is not finished, because it no longer reports Open |
| RelayPy.DeepgramSocket.constructor | server.py:130-134 | the accepted socket holds one new connection |
| RelayPy.DeepgramSocket.OnReceiveBytes | server.py:135-146 | a successful send forwards the chunk to the current connection; a failed one finishes it and replaces it by a new distinct connection, without resending the chunk |
| RelayPy.DeepgramSocket.OnDisconnect | server.py:148-150 | a disconnect finishes the connection the handler holds and ends the loop |
| RelayPy.DeepgramSocket.OnApplicationState | server.py:41 | the socket's application state changes and nothing else does |
| RelayPy.DeepgramSocket.OnTranscript | server.py:39-43 | a transcript from any connection, current or replaced, is sent only while the socket is CONNECTED |
| RelayPy.DeepgramSocket.OnMetadata | server.py:45-49 | metadata is sent unwrapped, and only while the socket is CONNECTED |
| RelayPy.DeepgramSocket.OnUtteranceEnd | server.py:51-55 | an utterance end is sent only while the socket is CONNECTED |
| RelayPy.DeepgramSocket.OnClose | server.py:29-31 | a Close event finishes the connection it came from |
| Client.Request | src/App.js:89-102 | a request is issued exactly when both the input and the target language are non-empty, and it carries them |
| Client.Receive | src/App.js:131-152 | the transcript only grows, by at most one line per message; what each kind of message does is stated by `ReceiveFrame` and `RunCommits` |
| Client.ReceiveFrame | src/App.js:131-152 | an interim result leaves the transcript and the pending input alone, and a non-empty one sets the interim line to its transcript and the confidence to its confidence; an utterance end or a final non-empty result clears the interim line and its confidence; an utterance end empties the pending input; a final non-empty result appends a space and its text to the pending input; an empty result or another message changes nothing |
| Client.Run | src/App.js:131-152 | a series of messages issues at most one request per message, each with a non-empty text and the selected language; `RunTranslatesAllSpeech` and `RunWithoutLanguage` state which texts |
| Client.StepTranslatesSpeech | src/App.js:133-146 | with a target language selected, for one message, what it sends for translation followed by what stays pending is what was pending followed by the speech it carries |
| Client.RunCommits | src/App.js:131-152 | after any series of messages the transcript is the old one followed by each final result and a line break per utterance end, in order |
| Client.RunTranslatesAllSpeech | src/App.js:89-146 | with a target language selected, the requests issued followed by the pending input are exactly the pending input at the start followed by all recognised speech |
| Client.RunWithoutLanguage | src/App.js:90-92 | without a target language no request is ever issued |
| Client.App.constructor | src/App.js:21-33 | the first render: empty transcripts and input, no microphone, recording off, socket connecting |
| Client.App.SelectLanguage | src/App.js:35-39 | only the target language changes |
| Client.App.OnSocketOpen | src/App.js:118-129 | the socket is open; with a microphone granted, the recorder is present and paused and the button is enabled |
| Client.App.OnSocketClose | src/App.js:154-160 | with a recorder, it is dropped, recording stops and the button is disabled; without one the handler throws and changes nothing else |
| Client.App.Translate | src/App.js:89-103 | a request with the pending input and the target language is logged unless either is empty |
| Client.App.OnMessage | src/App.js:131-152 | the transcript state becomes `Receive` of the old one, and an utterance end logs the request for the input as it was before the reset |
| Client.App.OnTranslateResponse | src/App.js:104-108 | the translated text is appended only when the status is 200 |
| Client.App.OnDataAvailable | src/App.js:64-69 | a blob is sent only if it is non-empty and the socket is open |
| Client.App.ToggleRecording | src/App.js:75-87 | without a microphone nothing changes; otherwise recording flips and the recorder is paused exactly when not recording |
| Client.App.Clear | src/App.js:205-210 | both transcripts and the interim line are emptied; the pending input, the requests and the rest are kept |

## Left out

- The speech and language-model SDKs (`listen.live`, `keepAlive()`, `messages.stream`, `messages.create`) are foreign libraries. Sessions are records, replies are parameters, and what `finish` or `start` does inside the SDK is an environment step.
- Sockets, HTTP routing, static file serving, `server.listen`, `uvicorn.run` and environment loading are plumbing with no state of the core.
- The Python shutdown signal handler (server.py:163-174) only cancels asyncio tasks.
- Concurrent translate requests: each translation is one atomic step. The source reads the history, awaits the model, then appends, so overlapping requests can build their requests from the same snapshot; that interleaving is not modelled.
- The ten-second keepalive period: an interval is modelled as running or stopped, with its target, and a tick is an environment step.
- The Error and Warning listeners only log, so they are not modelled.
- JSON and `str()` serialisation: messages are tagged as verbatim or wrapped in the metadata envelope, and payloads are opaque strings.
- `interimConfidence` is a float; the model stores it as an opaque `real` and never computes with it.
- Logging, the JSX view, Chakra UI, `join(" ")` for display, `getMicrophone` and the `MediaRecorder` lifecycle beyond present/paused.
- A `fetch` that rejects in `translate()` only logs; there is no separate step for it. Responses are not matched to the requests that caused them.
- RelayPy.DeepgramSocket.OnDisconnect: `dg_connection` is `None` only if `setup_deepgram` raises, which ends the handler with that exception, so the model always holds a connection.
- RelayPy.DeepgramSocket.OnApplicationState: Starlette's own state transitions are not modelled; the state is set by the environment.
- Client.RunTranslatesAllSpeech: holds for a series of messages during which the target language does not change.
- Conversation.PromptText: a prompt alone does not determine the request when the text itself contains `" --> "` (`"a --> b"` to `"c"` and `"a"` to `"b --> c"` give the same prompt); the text and the language are recovered only given the text's length.
- Request bodies with missing fields (`undefined` interpolated into the prompt) are not modelled; text and language are strings.
