# Chat panel send/stream state machine

This project models the client side of a small LLM chat application: the
chat panel component written in React. The panel keeps a conversation log of
`{ sender: 'user' | 'bot', text }` messages, the text of the input field, an
`isLoading` flag and an optional error message. It persists the log in local
storage under the key `chatMessages`.

A send appends the user's message at once. It then posts the message to the
relay and reads the streamed reply chunk by chunk. After each chunk a merge
updater runs. If the last message is a bot message, its text is replaced by
the whole reply received so far. Otherwise a new bot message holding just
that chunk is pushed. Any failure sets a fixed error message and rolls
nothing back. Every outcome clears the loading flag and the input. "New Chat"
empties the log and its stored entry. On mount, a stored log is adopted only
when the entry exists and is not the empty log.

Modules:

- `JsString` (`js_string.dfy`): JavaScript's `String.prototype.trim`, which
  the send guard uses. The set of characters it strips is ECMAScript's
  WhiteSpace plus LineTerminator.
- `ChatLog` (`chat_log.dfy`): the log as a value and the pure rules. These
  are the merge updater (`Merge`), the stream loop as a fold over the chunks
  (`Fold`, `Stream`), the closed form of a reply (`Replied`) and a whole
  turn (`TurnLog`). The response a send gets is a parameter (`Response`).
  It is one of: the fetch rejects, the status is not ok, or a body of
  decoded chunks that ends cleanly or with a failed read.
- `ChatPanel` (`chat_panel.dfy`): the class `Panel` with the four state
  fields and a `store` map standing for local storage. Each handler is a
  method, and each method's contract ties the new state to the `ChatLog`
  functions of the old state. The load rule and the persist/reload round
  trip are also here.

Modelling choices:

- React's state setters are applied at once and in order.
- The effect that persists the log runs right after every change of the log.
- A missing response body is `Body([], ReadFailed)`. The code then
  destructures `undefined`, which throws inside the `try`.
- The log is persisted as a `seq<Message>`. The stored text `'[]'`
  corresponds to the empty sequence.

Behaviour of the code worth noting:

- The `catch` also covers a read that rejects mid-stream. The bot text
  merged so far stays in the log (`FailedTurnKeepsPartialReply`).
- Only the rendered controls are disabled while `isLoading`. `handleSend`
  does not check it, and neither does `Panel.Send`.

## Model

| member | source | states |
|---|---|---|
| JsString.TrimStartSpec | client/src/components/ChatPanel/index.tsx:92 | dropping leading white space keeps a suffix of the input, everything dropped is white space, and the kept part does not start with white space |
| JsString.TrimEndSpec | client/src/components/ChatPanel/index.tsx:92 | dropping trailing white space keeps a prefix, everything dropped is white space, and the kept part does not end with white space |
| JsString.TrimIsSlice | client/src/components/ChatPanel/index.tsx:92 | `trim()` returns one contiguous slice of the input |
| JsString.TrimDropsOnlySpace | client/src/components/ChatPanel/index.tsx:92 | everything on either side of that slice is white space |
| JsString.TrimKeepsNoOuterSpace | client/src/components/ChatPanel/index.tsx:92 | a non-empty trimmed result neither starts nor ends with white space |
| JsString.TrimEmptyIffAllSpace | client/src/components/ChatPanel/index.tsx:92 | trimming gives `''` if and only if every character is white space, in both directions |
| JsString.TrimEmptyIffBlank | client/src/components/ChatPanel/index.tsx:92 | `input.trim() === ''` holds exactly when every character is ECMAScript white space or a line terminator, the empty input included |
| JsString.Trim | client/src/components/ChatPanel/index.tsx:92 | `trim()` over ECMAScript's WhiteSpace and LineTerminator characters; the result is never longer than the input (its meaning is stated by the lemmas above) |
| ChatLog.Sent | client/src/components/ChatPanel/index.tsx:35 | the optimistic update appends exactly one message `{sender: 'user', text: message}` after the unchanged log, so the log then does not end with a bot message |
| ChatLog.Merge | client/src/components/ChatPanel/index.tsx:63-74 | after the updater the log always ends with a bot message and is at most one message longer |
| ChatLog.MergeOverwritesBot | client/src/components/ChatPanel/index.tsx:67-68 | when the last message is `bot`, the length is unchanged, every earlier message is unchanged, and the last message is a bot message holding the cumulative `botMessage` |
| ChatLog.MergeAppendsBot | client/src/components/ChatPanel/index.tsx:69-71 | otherwise exactly one `{sender: 'bot', text: chunkValue}` is appended after the unchanged log |
| ChatLog.MergeSameTextIsNoOp | client/src/components/ChatPanel/index.tsx:56-68 | re-applying the cumulative text the last bot message already holds leaves the log unchanged, whatever the chunk |
| ChatLog.ConcatCons | client/src/components/ChatPanel/index.tsx:54-61 | the text built by `botMessage += chunkValue` from `''` is c1 ++ ... ++ cn, with the first chunk first |
| ChatLog.ConcatAppend | client/src/components/ChatPanel/index.tsx:54-61 | that accumulation distributes over splitting the chunk list |
| ChatLog.Fold | client/src/components/ChatPanel/index.tsx:53-74 | the log after the loop has read and merged a prefix of the chunks; it is at most one message longer and, once a chunk has been read, ends with a bot message |
| ChatLog.Stream | client/src/components/ChatPanel/index.tsx:53-77 | the log after the whole loop, the final `done` iteration included; it is at most one message longer and always ends with a bot message |
| ChatLog.FoldStep | client/src/components/ChatPanel/index.tsx:56-74 | one more loop iteration adds one chunk to `botMessage` and runs one more merge |
| ChatLog.FoldIsReplied | client/src/components/ChatPanel/index.tsx:53-74 | after n ≥ 1 chunks the log is the starting log plus a single bot reply whose text is the concatenation of the chunks; a trailing bot message is replaced rather than kept |
| ChatLog.StreamIsReplied | client/src/components/ChatPanel/index.tsx:53-77 | a stream read to its end, including the final `done` iteration, always ends with that single bot reply; with zero chunks the final iteration pushes a bot message with empty text |
| ChatLog.FinalReadIsNoOp | client/src/components/ChatPanel/index.tsx:56-61 | once a chunk has been merged, the final `done` iteration with its empty chunk changes nothing |
| ChatLog.AtMostOneBotReply | client/src/components/ChatPanel/index.tsx:35-74 | after the user's message, every intermediate log of the stream is that log plus at most one bot message holding the text received so far; the finished stream adds exactly one |
| ChatLog.Received | client/src/components/ChatPanel/index.tsx:37-88 | the log once the response is handled: unchanged when the fetch rejects or the status is not ok, at most one message longer in every case, ending with a bot message on success |
| ChatLog.TurnLog | client/src/components/ChatPanel/index.tsx:32-88 | the log after a whole send: one or two messages longer, ending with a bot message on success |
| ChatLog.TurnShape | client/src/components/ChatPanel/index.tsx:32-88 | every turn keeps all earlier messages and the user's message and adds at most one more; a successful turn adds exactly `user: message`, then `bot: c1 ++ ... ++ cn` |
| ChatLog.FailedTurnKeepsPartialReply | client/src/components/ChatPanel/index.tsx:46-84 | a rejected fetch, a non-ok status or an immediate read failure leaves just the user's message; a read failure after some chunks also keeps the bot text merged so far; nothing is rolled back |
| ChatLog.SuccessfulTurnAlternates | client/src/components/ChatPanel/index.tsx:32-89 | one successful turn keeps an alternating log alternating and makes it two messages longer |
| ChatLog.SuccessfulTurnsAlternate | client/src/components/ChatPanel/index.tsx:32-89 | N successful sends from an empty log leave exactly 2N messages, alternating `user`, `bot`, starting with `user` |
| ChatPanel.IsBlank | client/src/components/ChatPanel/index.tsx:92 | the send guard `input.trim() === ''` holds exactly when every character of the input is white space or a line terminator |
| ChatPanel.SavedLog | client/src/components/ChatPanel/index.tsx:21-26 | the mount effect offers the stored log only when the entry exists and is not the empty log; what it offers is exactly the stored log |
| ChatPanel.AfterLoad | client/src/components/ChatPanel/index.tsx:21-26 | the log after the mount effect is either the current log or the non-empty stored log; with no stored entry it is the current log |
| ChatPanel.ReloadRestores | client/src/components/ChatPanel/index.tsx:21-30 | persisting a log and mounting a fresh panel on that store reproduces the log, the empty one included; the entry is adopted exactly when the log is non-empty |
| ChatPanel.HelloWorldTurn | client/src/components/ChatPanel/index.tsx:53-74 | chunks "Hel", "lo ", "world" after "hi": after two reads the log is `[user: hi, bot: Hello ]`, and the turn ends with `[user: hi, bot: Hello world]` |
| ChatPanel.Panel.constructor | client/src/components/ChatPanel/index.tsx:16-19 | the initial state: empty log, empty input, not loading, no error; the store is what local storage holds at mount |
| ChatPanel.Panel.Load | client/src/components/ChatPanel/index.tsx:21-30 | the mount effects adopt the stored log only when the entry exists and is not `'[]'`, otherwise keep the current log; then they write the log back under the key |
| ChatPanel.Panel.ChangeInput | client/src/components/ChatPanel/index.tsx:107-110 | the input takes the typed value |
| ChatPanel.Panel.Send | client/src/components/ChatPanel/index.tsx:32-35 | with the guard of `handleSend` (lines 91-94): blank input after trimming changes nothing; any other input sets `isLoading`, clears `error`, appends exactly one user message holding the raw, untrimmed input, keeps every earlier message, and persists the log; `isLoading` is not checked |
| ChatPanel.Panel.ApplyChunk | client/src/components/ChatPanel/index.tsx:63-74 | the log becomes `Merge` of the old log and is persisted under the key |
| ChatPanel.Panel.ReadStream | client/src/components/ChatPanel/index.tsx:53-77 | the `while (!done)` loop leaves `Stream` of the old log when the body ends cleanly, or `Fold` of the chunks read before a failed read; it reports the failure and leaves the store consistent with the log |
| ChatPanel.Panel.Fail | client/src/components/ChatPanel/index.tsx:80-84 | `error` becomes the fixed message |
| ChatPanel.Panel.Finish | client/src/components/ChatPanel/index.tsx:85-88 | `isLoading` becomes false and `input` becomes `''` |
| ChatPanel.Panel.Respond | client/src/components/ChatPanel/index.tsx:37-88 | after the try/catch/finally the log is `Received` of the log holding the user's message; the error is set exactly when the response fails; loading and input are cleared on every outcome |
| ChatPanel.Panel.HandleSend | client/src/components/ChatPanel/index.tsx:91-94 | a whole send: blank input changes nothing; otherwise the log is `TurnLog` of the old log and the raw input, loading and input are cleared, the error is the fixed message exactly on failure and null on success, and the store holds the new log |
| ChatPanel.Panel.NewChat | client/src/components/ChatPanel/index.tsx:112-115 | the log and its stored entry become empty whatever `isLoading` is; other state is untouched |

## Left out

- The relay server (`server.ts`) is not part of this model. It only forwards
  the provider's fragments over HTTP, and its error sentinel depends on the
  HTTP framework and the provider's library.
- `client/src/App.tsx` is not part of this model. It only mounts the panel.
- `fetch`, the body reader and `TextDecoder` are left out: the response is a
  parameter whose chunks are already-decoded strings. The code decodes with
  `stream: true` even on the final read, so an incomplete UTF-8 sequence at
  the end of the body is never flushed. That is decoder behaviour and is not
  modelled.
- React scheduling is left out:
  - deferred or batched updater queues;
  - effect ordering and re-runs;
  - the closure capture of `botMessage` by updaters that run late.
  All updates are applied immediately and in order.
- Interleavings with a stream in flight are left out: a second send, or New
  Chat while a reply streams. They need the asynchronous scheduler. Each
  method's contract holds for whatever state it is called on.
- The merge updater copies the array shallowly, so it mutates the text of the
  previous state's last message object in place. The model works on values,
  so this aliasing with the old snapshot is not captured.
- JSON serialisation of the stored log is left out. The store holds the log
  as a value, and the empty log stands for the text `'[]'`. These stored
  texts cannot be represented:
  - `''`, which is present but falsy in JavaScript, so it is not adopted;
  - text that is not valid JSON, on which `JSON.parse` throws;
  - an empty array written otherwise, such as `"[ ]"`, which the code adopts
    while `SavedLog` rejects the empty log;
  - valid JSON that is not a log, such as `"null"`, which the code adopts.
- JavaScript strings are UTF-16. The model's strings are sequences of Unicode
  scalar values. This does not change `trim()`, because every character it
  strips is a single code unit.
- The 50 ms pause between reads, console logging and JSX rendering are left
  out. Of the rendering, only `disabled={isLoading}` affects behaviour, and
  it is mentioned above.
