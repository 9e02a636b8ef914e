# VORA companion chat: streaming reply decoder and controller

This project models the chat widget `VoraCompanionProFinal` of the NAVORA
companion in Dafny and proves properties about that model. The widget keeps a
list of `{sender, text}` messages that starts with one `vora` greeting.
`sendMessage` appends the trimmed user input and posts it to the model
endpoint. It then appends an empty `vora` reply and fills that reply in place
from the streamed response body. The response is split on `'\n'` one chunk at
a time, and only lines whose trimmed form starts with `data: ` are kept. A
leading `data: ` is stripped, a `[DONE]` payload stops the lines of that
chunk, and every other payload is parsed and its
`choices[0].delta.content || ''` is appended to the reply. At the end of the
stream the reply goes to `speak` and `loading` is cleared.

Files and modules:

- `js_string.dfy`, module `JsString`: the ECMAScript string operations the
  decoder uses. These are `trim`, with ECMAScript's WhiteSpace and
  LineTerminator set; `startsWith`; and `split` on one character, with `join`
  as its reference.
- `stream_decoder.dfy`, module `StreamDecoder`: the per-line and per-chunk
  logic as functions (`IsDataLine`, `StripDataPrefix`, `Filter`, `DataLines`,
  `Classify`, `LineTokens`, `ChunkTokens`, `Tokens`, `StreamText`,
  `Snapshots`), with lemmas about them and two worked streams.
- `companion.dfy`, module `Companion`: the component's state as a class,
  `Controller`. Its `SendMessage` runs the read loop and the line loop.
  `ConsumeStream`, `ConsumeLines` and the loop body `ConsumeLine` are proved
  against
  `StreamDecoder.StreamText` and `StreamDecoder.Snapshots`, and the class also
  has the flag toggles and the `speak` guard.

How the foreign parts are represented:

- The response body is a parameter `chunks: seq<string>` holding text that is
  already decoded. `TextDecoder` is the identity.
- `JSON.parse` followed by the optional-chain lookup is a parameter
  `extract: string -> Option<string>`. `None` means the parse or the
  property access throws, so the line is logged and skipped. `Some("")` means
  the content is missing or falsy, and `Some(t)` means a token `t`. Every
  property is proved for every `extract`.
- The two `fetch` calls are recorded rather than performed. `requests` holds
  the `message` sent to the chat endpoint and `spoken` the `text` sent to the
  speech endpoint. `recognizerCalls` records `start()`/`stop()` on the speech
  recognizer. Whether `window` exists and whether a recognizer was created are
  constructor parameters.
- `setState` updates are sequential assignments. The in-place write
  `updated[updated.length - 1].text = result` replaces the last element's
  text (`WithLastText`).

## Model

| member | source | states |
|---|---|---|
| `JsString.Trim` | components/VoraCompanionProFinal.jsx:62-63 | `trim()` is no longer than its input, neither starts nor ends with whitespace, and is empty exactly when the input is all whitespace (the blank-input guard) |
| `JsString.TrimIsPiece` | components/VoraCompanionProFinal.jsx:62 | `trim()` returns a contiguous piece of its input with only whitespace before and after it |
| `JsString.TrimCharacterization` | components/VoraCompanionProFinal.jsx:84 | what `trim()` returns is determined: for whitespace `p`, `q` around a string `m` that neither starts nor ends with whitespace, `trim(p + m + q) == m` |
| `JsString.LeadingWhitespace` | components/VoraCompanionProFinal.jsx:84 | the count of leading characters `trim()` drops: all whitespace, and the next character is not |
| `JsString.TrailingWhitespace` | components/VoraCompanionProFinal.jsx:84 | the count of trailing characters `trim()` drops: all whitespace, and the character before them is not |
| `JsString.IsWhitespace` | components/VoraCompanionProFinal.jsx:62 | the code points `trim()` removes, by definition: ECMAScript WhiteSpace (tab, vertical tab, form feed, space, no-break space, U+FEFF and the space separators U+1680, U+2000-U+200A, U+202F, U+205F, U+3000) and LineTerminator (`\n`, `\r`, U+2028, U+2029); `Trim`, `TrimIsPiece` and `TrimCharacterization` are stated in terms of it |
| `JsString.StartsWith` | components/VoraCompanionProFinal.jsx:84 | `startsWith(prefix)`, by definition: the prefix is no longer than the string and equals its first characters |
| `JsString.Split` | components/VoraCompanionProFinal.jsx:84 | `chunk.split('\n')` gives at least one piece and no piece contains `'\n'` |
| `JsString.JoinSplit` | components/VoraCompanionProFinal.jsx:84 | splitting loses nothing: joining the pieces with `'\n'` gives back the chunk |
| `JsString.SplitJoin` | components/VoraCompanionProFinal.jsx:84 | splitting the join of newline-free lines gives back exactly those lines, in order |
| `StreamDecoder.IsDataLine` | components/VoraCompanionProFinal.jsx:84 | the filter's test, by definition `line.trim().startsWith('data: ')`; `TrimmedDataLine`, `IndentedDataLine`, `FramedLine` and `OpensWithOtherChar` show which lines pass it |
| `StreamDecoder.Filter` | components/VoraCompanionProFinal.jsx:84 | `filter` keeps a subsequence, no longer than its input; `FilterKeeps` and `FilterAppend` give which elements and in what order |
| `StreamDecoder.DataLines` | components/VoraCompanionProFinal.jsx:84 | the lines the inner loop visits, by definition `chunk.split('\n').filter(isDataLine)`; `ChunkOfLines` and `NonDataLineIgnored` are stated through it |
| `StreamDecoder.Classify` | components/VoraCompanionProFinal.jsx:86-99 | what one visited line does: `[DONE]`, a throwing parse, or a token; `LineContributesIff`, `SentinelStopsChunk`, `UnparsableLineSkipped`, `TokenLineAppends` and `SentinelLineIsLiteral` state what each case does to the chunk and to `result` |
| `StreamDecoder.SentinelLineIsLiteral` | components/VoraCompanionProFinal.jsx:84-88 | among the lines the filter keeps, a line ends its chunk exactly when it is the literal `data: [DONE]`; an indented or CR-terminated `[DONE]` line does not |
| `StreamDecoder.StripDataPrefix` | components/VoraCompanionProFinal.jsx:86 | `replace(/^data: /, '')` is anchored: on a line that starts with `data: ` the line is `data: ` + payload, and any other line is returned unchanged |
| `StreamDecoder.FilterKeeps` | components/VoraCompanionProFinal.jsx:84 | `filter` keeps exactly the elements that pass its test, in both directions; `DataLines` applies it with the test `line.trim().startsWith('data: ')` |
| `StreamDecoder.LineTokens` | components/VoraCompanionProFinal.jsx:85-100 | the inner loop yields at most one token per line |
| `StreamDecoder.LineTokensFromLines` | components/VoraCompanionProFinal.jsx:88-91 | every token the inner loop yields is the extracted content of one of its lines |
| `StreamDecoder.HasSentinelIff` | components/VoraCompanionProFinal.jsx:87 | a run of lines holds a `[DONE]` exactly when one of its lines strips to the payload `[DONE]` |
| `StreamDecoder.LineContributesIff` | components/VoraCompanionProFinal.jsx:84-91 | a line gives a token if and only if its trimmed form starts with `data: `, its payload is not `[DONE]` and `extract` succeeds; the token is then the extracted content, and any other line gives nothing |
| `StreamDecoder.NonDataLineIgnored` | components/VoraCompanionProFinal.jsx:84 | removing a line that fails the filter does not change the tokens of the chunk |
| `StreamDecoder.IndentedDataLine` | components/VoraCompanionProFinal.jsx:84-90 | a data line opening with any non-empty run of whitespace, whatever trails its payload, passes the filter but keeps its `data: `, so the whole line goes to the parse and, when that throws, gives no token |
| `StreamDecoder.FramedLine` | components/VoraCompanionProFinal.jsx:84-86 | `data: ` followed by any payload that is not all whitespace passes the filter, and the strip hands exactly that payload, trailing whitespace included, to the parse |
| `StreamDecoder.TrimmedDataLine` | components/VoraCompanionProFinal.jsx:84 | any leading whitespace, then `data: `, then a payload that is not all whitespace (trailing `\r` or spaces allowed) passes the filter |
| `StreamDecoder.SentinelStopsChunk` | components/VoraCompanionProFinal.jsx:87 | `[DONE]` gives no token and drops every later line of its chunk |
| `StreamDecoder.LaterChunksStillDecoded` | components/VoraCompanionProFinal.jsx:80-87 | only the end of the stream ends the read loop: the chunks after any chunk, one holding `[DONE]` included, still add their tokens |
| `StreamDecoder.UnparsableLineSkipped` | components/VoraCompanionProFinal.jsx:88-99 | a payload whose parse throws gives no token, and the lines after it in the same chunk are still handled |
| `StreamDecoder.TokenLineAppends` | components/VoraCompanionProFinal.jsx:89-91 | a parsed line with no `[DONE]` before it appends its token between the tokens of the earlier and the later lines |
| `StreamDecoder.LineTokensAppend` | components/VoraCompanionProFinal.jsx:85-87 | the tokens of two runs of lines are those of the first run, followed by those of the second exactly when the first holds no `[DONE]` |
| `StreamDecoder.ChunkOfLines` | components/VoraCompanionProFinal.jsx:83-85 | a chunk written as newline-separated lines is decoded as the inner loop over those lines that pass the filter |
| `StreamDecoder.ChunkTokens` | components/VoraCompanionProFinal.jsx:83-100 | the tokens one chunk adds, by definition the inner loop over that chunk's kept lines; `FramedChunk`, `LineContributesIff` and `ChunkOfLines` say what it is for given chunks |
| `StreamDecoder.Tokens` | components/VoraCompanionProFinal.jsx:80-101 | every chunk's tokens, chunk after chunk, in the order the read loop receives them; `TokensAppend` and `LaterChunksStillDecoded` state that order |
| `StreamDecoder.TokensAppend` | components/VoraCompanionProFinal.jsx:80-101 | the tokens of two consecutive parts of a stream are the first part's followed by the second's |
| `StreamDecoder.StreamText` | components/VoraCompanionProFinal.jsx:76-101 | the final value of `result`, the tokens concatenated; `ConsumeStream` ends with exactly this value and `SnapshotsGrow` shows every earlier write is a prefix of it |
| `StreamDecoder.StreamTextAppend` | components/VoraCompanionProFinal.jsx:80-101 | chunks are decoded independently and in order: the text of a stream is the text of its first part followed by the text of the rest |
| `StreamDecoder.Snapshots` | components/VoraCompanionProFinal.jsx:91-95 | the values written into the last message, exactly one per token |
| `StreamDecoder.SnapshotsAt` | components/VoraCompanionProFinal.jsx:91-95 | the k-th value written is the concatenation of the first k+1 tokens |
| `StreamDecoder.SnapshotsGrow` | components/VoraCompanionProFinal.jsx:91-95 | the reply text only grows: every value written is a prefix of the next and of the final text, and the last one written is the final text |
| `StreamDecoder.CutLineIsLost` | components/VoraCompanionProFinal.jsx:83-84 | an event line delivered in two chunks is not put back together: one chunk gives "pon", but the same characters cut inside the JSON give nothing |
| `StreamDecoder.PingReplyIsPong` | components/VoraCompanionProFinal.jsx:80-101 | chunks `data: {…"pon"…}\n`, `data: {…"g"…}\n`, `data: [DONE]\n` decode to exactly "pong" |
| `StreamDecoder.FramedChunk` | components/VoraCompanionProFinal.jsx:84-91 | a chunk holding one event line `data: <payload>\n`, for any payload not all whitespace (CRLF framing included, the `\r` then reaching the parse), gives nothing for `[DONE]` or an unparsable payload, and otherwise exactly the extracted token |
| `Companion.WithLastText` | components/VoraCompanionProFinal.jsx:92-96 | the update keeps the length and every earlier message, and changes only the last message's text, keeping its sender |
| `Companion.Controller.constructor` | components/VoraCompanionProFinal.jsx:4-10 | the initial state: the one `vora` greeting, empty input, not loading, voice on, not listening; a recognizer exists only when `window` has one (line 19) |
| `Companion.Controller.SetInput` | components/VoraCompanionProFinal.jsx:156 | the text field sets `input` |
| `Companion.Controller.ToggleVoiceInput` | components/VoraCompanionProFinal.jsx:35-42 | `isListening` flips; if a recognizer exists it is stopped when listening, and started otherwise |
| `Companion.Controller.ToggleVoiceEnabled` | components/VoraCompanionProFinal.jsx:170 | `voiceEnabled` flips |
| `Companion.Controller.Speak` | components/VoraCompanionProFinal.jsx:44-51 | the text is posted for synthesis only when voice is enabled and `window` exists, and nothing is posted otherwise |
| `Companion.Controller.ConsumeLine` | components/VoraCompanionProFinal.jsx:86-99 | one line: `[DONE]` leaves the loop and nothing else; a parsed payload appends its token to `result` and writes the new `result` into the last message; a payload whose parse throws is skipped |
| `Companion.Controller.ConsumeLines` | components/VoraCompanionProFinal.jsx:85-100 | the line loop over one chunk's kept lines adds exactly that chunk's tokens to `result`, writes each new `result` into the last message, and leaves every other message alone |
| `Companion.Controller.ConsumeStream` | components/VoraCompanionProFinal.jsx:66-101 | entered with `loading` set and the empty reply placeholder last, at loop exit `result` is the in-order concatenation of every chunk's tokens; the values written into the last message are the stream's snapshots, the last message holds `result`, and nothing else changes |
| `Companion.Controller.SendMessage` | components/VoraCompanionProFinal.jsx:61-105 | blank input changes nothing and posts nothing; otherwise messages grow by exactly a `user` message with the trimmed text and a `vora` message holding the stream's text, earlier messages are unchanged, input becomes empty, the trimmed text is posted, the reply goes to `speak`, and `loading` ends false; the list is never empty |

## Left out

- `pages/api/speak.js` is not part of this model. It reads a body, answers with
  a fixed 500 when the key is missing, and otherwise forwards the request and
  the audio. That is proxy plumbing to a third-party service.
- The network calls themselves and `response.body.getReader()` are left out.
  The stream is the given chunk sequence, and the end of that sequence is the
  reader's `done`. A request that fails is not modelled: neither a rejected
  `fetch` nor a `reader.read()` that rejects in the middle of the stream
  (line 81). The model therefore has no path where `loading` stays `true`,
  `speak` is never called, and the partial reply written so far stays in the
  last message.
- UTF-8 decoding with `TextDecoder` is left out. Chunks are already-decoded
  strings. Dafny characters are Unicode scalar values, not UTF-16 code units.
- `JSON.parse` and the `choices?.[0]?.delta?.content || ''` lookup are the
  `extract` parameter, not a JSON parser. The lemma that an indented data line
  is skipped therefore takes "the parse throws" as a hypothesis.
- Audio playback (`res.blob()`, `URL.createObjectURL`, `new Audio(url).play()`)
  and the `catch` that logs playback errors are left out. `Speak` records the
  text that would be posted.
- The recognizer setup effect (lines 18-33) is left out, including its
  `onresult`, which appends the transcript to `input`, and its `onerror`,
  which clears `isListening`. Only whether a recognizer exists is kept.
- The auto-scroll effect, the JSX rendering and the Enter-key handler are left
  out. The key handler only calls `sendMessage`.
- `console.error` logging is left out.
- Concurrency is left out. `setState` batching, the asynchronous suspension at
  each `await`, and a second submission while a reply is still streaming are
  not modelled. Each `SendMessage` runs to completion before the next.
- `Snapshots` and `SnapshotsAt` describe the writes under that sequential
  reading. The updater at lines 92-96 reads the variable `result` when React
  runs it, not the value `result` had when it was queued. With batching, the
  k-th updater can therefore write a longer text than the first k+1 tokens.
  Only the final write, which is the whole reply, is the same in both
  readings.
- `ConsumeStream` and `SendMessage` report the texts written into the last
  message as a ghost out-parameter (`writes`), so that record costs nothing at
  run time.
