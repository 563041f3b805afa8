# Designer agent event stream

A model of the `start` body of the `ReadableStream` that `handleDesignRequest`
returns (app/designer-agent.js). The body:

- reads a language model's streamed completion chunk by chunk and appends each delta to a buffer;
- after every chunk, pulls the `content` string out of the buffer with a regular expression and enqueues the part not sent yet as a partial event;
- runs `JSON.parse` on the whole buffer after every chunk;
- on the first successful parse, enqueues a `complete` event and, when `image_gen_prompt` is truthy, runs the image job at most once (generate, check `b64_json`, upload). It then leaves the loop.
- after the loop, runs a regex recovery on the buffer, which yields a `recovered` or a `raw` event;
- ends with `done`, or with an `error` event when the token source throws.

The token source, `JSON.parse`, the image generator and the uploader are inputs:

- The token source is the list of chunk deltas plus an optional error. The error is thrown when the loop asks for the chunk after the last.
- `JSON.parse` is a function from the buffer to an optional record of the three fields the stream reads.
- Generation and upload are outcomes: each either throws with a message or returns its result.

Modules:

- `Wrappers`: `Option`.
- `JsText`: the ECMAScript `\s` class, line terminators, `trim` and `includes`.
- `FieldExtractor`: the two regular expressions, `"<name>":\s*"([^"\\]*(\\.[^"\\]*)*)"` and the same with `"?` at the end, run by `String.prototype.match`, written as a scanner.
  - `MatchesAt` states the pattern declaratively.
  - The scanner is proved to return the leftmost, greedy match.
- `DesignerAgent`:
  - `Run` and `RunCalls` are the specification: the events the stream enqueues and the image-service calls it makes.
  - `Start` is the stream body, a loop over the chunks proved to produce exactly `Run` and `RunCalls`.
- `StreamProperties`: what the stream promises, proved about `Run`.

Behaviours of the code worth knowing:

- **The recovery is not gated on parse failure.** It runs whenever the final buffer is non-blank and lacks the literal `"image_gen_prompt"`, whether or not a parse succeeded. A parsed response without an image prompt therefore gets a second terminal event (`recovered` or `raw`) after its `complete` event.
- **The `complete` event precedes the image events.** It is not enqueued after them.
- **A blank stream yields no `raw` event.** A stream whose text is empty or all white space, that never parses and does not fail, sends only `done`.
- **Partial content is not streamed piece by piece.** The partial-content pattern needs the closing quote of `content`. Once that quote arrives, the capture never changes. So at most one partial event is sent, and it carries the whole string.
- **The parsed `content` and `reasoning` are forwarded unchecked.** The `complete` event carries them whether present or not; nothing checks that they are strings.

## Model

| member | source | states |
|---|---|---|
| JsText.TrimStartSplits | app/designer-agent.js:148 | removing leading white space drops a blank prefix and leaves a suffix that is empty or starts with a non-space |
| JsText.TrimEndSplits | app/designer-agent.js:148 | removing trailing white space drops a blank suffix and leaves a prefix that is empty or ends with a non-space |
| JsText.TrimEmptyIffBlank | app/designer-agent.js:147-148 | `buffer.trim()` is falsy exactly when the buffer is all white space |
| FieldExtractor.Key | app/designer-agent.js:62 | the literal that opens the pattern is `"`, the field name, `"` and `:` |
| FieldExtractor.SkipSpace | app/designer-agent.js:62 | `\s*` consumes exactly the maximal run of white space |
| FieldExtractor.Scan | app/designer-agent.js:62 | the greedy value group stops at an unescaped quote, at a backslash before a line terminator, at a trailing backslash, or at the end |
| FieldExtractor.ValueStart | app/designer-agent.js:62 | a header match places the value's opening quote after the key |
| FieldExtractor.FirstMatch | app/designer-agent.js:61-63 | the result is the leftmost start position where the pattern matches; no position before it matches |
| FieldExtractor.ScanEscaped | app/designer-agent.js:62 | what the scan consumes is a word of `[^"\\]*(\\.[^"\\]*)*` |
| FieldExtractor.ScanLongest | app/designer-agent.js:62 | every word of the value group ends no later than the scan, and one followed by `"` ends exactly where it does |
| FieldExtractor.EscapedThenQuoteCloses | app/designer-agent.js:62 | a value followed by `"` is closed by that quote |
| FieldExtractor.GreedyAt | app/designer-agent.js:61-63 | any match at a start position is found by the scanner, whose capture extends it |
| FieldExtractor.MatchAtIsGreedyMatch | app/designer-agent.js:61-63 | at one start position the scanner matches exactly when the pattern does, and captures the longest value |
| FieldExtractor.ExtractIsLeftmostGreedyMatch | app/designer-agent.js:61-63 | `match(...)[1]` is defined exactly when the pattern matches somewhere; it is then the greedy capture of the leftmost match |
| FieldExtractor.Leftmost | app/designer-agent.js:61-63 | no match starts left of the first match found |
| FieldExtractor.ExtractEscaped | app/designer-agent.js:151-156 | both patterns capture raw escaped text with no unescaped `"` and no unpaired `\` |
| FieldExtractor.StrictNeedsClosingQuote | app/designer-agent.js:62 | the strict capture is immediately followed by its closing quote in the buffer |
| FieldExtractor.StrictImpliesLenient | app/designer-agent.js:151-153 | wherever the strict pattern matches, the lenient one matches too, no further right |
| FieldExtractor.EarlierStaysUnmatched | app/designer-agent.js:61-63 | positions before the leftmost match stay unmatched when text is appended |
| FieldExtractor.FirstMatchIs | app/designer-agent.js:61-63 | the leftmost match is at `i` when the pattern matches there and nowhere earlier |
| FieldExtractor.StrictAtStable | app/designer-agent.js:61-63 | a strict match at a position is unchanged by appended text |
| FieldExtractor.StrictStable | app/designer-agent.js:61-63 | once the strict pattern matches, appending text never changes its capture |
| FieldExtractor.LenientAtGrows | app/designer-agent.js:151-156 | the lenient capture at a position only grows with appended text |
| FieldExtractor.LenientGrows | app/designer-agent.js:151-156 | appending text only extends the lenient capture: the old capture is a prefix of the new one |
| DesignerAgent.Absorbed | app/designer-agent.js:56-58 | after `k` chunks the buffer is the concatenation of the first `k` deltas |
| DesignerAgent.ParseStop | app/designer-agent.js:80-81 | the loop stops at the first chunk after which the buffer parses; every earlier buffer fails to parse |
| DesignerAgent.GenerateAndUpload | app/designer-agent.js:99-138 | the image job's one outcome event and its calls are those of the specification `ImageJob` and `ImageCalls` |
| DesignerAgent.Recover | app/designer-agent.js:147-175 | the recovery enqueues exactly `Fallback(buffer)` |
| DesignerAgent.Conclude | app/designer-agent.js:83-139 | after a parse: the `complete` event, then the image job only if the flag was clear and the prompt truthy; the flag is set exactly when it was set or the prompt is truthy |
| DesignerAgent.ReadTokens | app/designer-agent.js:52-145 | the loop leaves with the buffer of the chunks read, the partial events, the terminal events and calls of the first parse, or the source's error when nothing parsed |
| DesignerAgent.Start | app/designer-agent.js:49-188 | the stream body enqueues exactly `Run` and makes exactly the calls `RunCalls` |
| StreamProperties.ReceivedGrows | app/designer-agent.js:52-58 | the buffer only grows: the text of fewer chunks is a prefix of the text of more |
| StreamProperties.ReceivedPrefix | app/designer-agent.js:56-58 | the buffer after `k` chunks depends on those chunks only |
| StreamProperties.CursorMonotone | app/designer-agent.js:64-76 | `lastSentContentLength` never decreases, and enqueued events stay enqueued |
| StreamProperties.AbsorbSendsUnsent | app/designer-agent.js:64-76 | a partial event is sent only for a non-empty capture longer than the cursor, and carries exactly its unsent suffix; the cursor moves to its end |
| StreamProperties.StreamedDeltas | app/designer-agent.js:56-77 | after any number of chunks the partial events are none or one carrying the whole strict capture, and the cursor is the capture's length |
| StreamProperties.AbsorbKeepsDeltas | app/designer-agent.js:61-76 | for any capture that never changes once truthy, one chunk keeps the partial events and the cursor in step with the capture |
| StreamProperties.SettledDeltas | app/designer-agent.js:56-77 | for any capture that never changes once truthy and is empty on the empty buffer, the partial events after any number of chunks are none or one carrying the whole capture, and the cursor is its length |
| StreamProperties.StrictSettles | app/designer-agent.js:61-63 | the strict `content` capture never changes once truthy |
| StreamProperties.PartialsAreCaptured | app/designer-agent.js:61-76 | a capture streamed earlier equals the capture of any later buffer: streamed content is never retracted |
| StreamProperties.BlankHasNoCapture | app/designer-agent.js:61-64 | a blank buffer yields no partial content |
| StreamProperties.FallbackAtMostOne | app/designer-agent.js:147-175 | the recovery enqueues at most one event, `recovered` or `raw` |
| StreamProperties.PartialsOrdered | app/designer-agent.js:64-76 | partial events sit in the first phase of the stream |
| StreamProperties.FallbackOrdered | app/designer-agent.js:147-175 | the recovery sits in its own phase |
| StreamProperties.TerminalOrdered | app/designer-agent.js:83-138 | `complete` precedes `gen`, which precedes the image outcome |
| StreamProperties.ParsedRunOrdered | app/designer-agent.js:49-188 | a parsed run's events come in phase order |
| StreamProperties.UnparsedRunOrdered | app/designer-agent.js:147-179 | partial content, the recovery, then `done` come in phase order |
| StreamProperties.FailedRunOrdered | app/designer-agent.js:180-185 | partial content then the error event come in phase order |
| StreamProperties.ParsedRun | app/designer-agent.js:56-179 | a stream whose buffer parses sends that buffer's partial content, the terminal events of the parse, the recovery of that buffer, and `done` |
| StreamProperties.FailedRun | app/designer-agent.js:56-185 | a stream that fails before any parse sends its partial content and then only the error event with the source's message |
| StreamProperties.RunOrdered | app/designer-agent.js:49-188 | events come in a fixed order, each phase at most once: partial, `complete`, `gen`, image outcome, recovery, then `done` or error |
| StreamProperties.RunEnding | app/designer-agent.js:177-185 | the last event is the error event with the source's message when nothing parsed and the source failed, otherwise `done` |
| StreamProperties.TerminalParse | app/designer-agent.js:80-81 | a terminal parse exists exactly when some buffer parsed |
| StreamProperties.ImageJobOutcome | app/designer-agent.js:99-138 | the image job enqueues `gen` then exactly one outcome; `b64_json` is uploaded only when truthy; `done` exactly when the upload succeeded; otherwise the failing step's message or the fixed missing-image message |
| StreamProperties.TerminalShape | app/designer-agent.js:83-97 | the terminal events open with one `complete` carrying the parsed fields and contain the image job exactly when the prompt is truthy |
| StreamProperties.RunTerminal | app/designer-agent.js:80-139 | `complete` is enqueued exactly when a buffer parsed, with the parsed fields; the image job runs exactly when the prompt is truthy, and its calls are the only calls |
| StreamProperties.AbsorbedPrefix | app/designer-agent.js:56-76 | the loop state after `k` chunks depends on those chunks only |
| StreamProperties.ParseStopPrefix | app/designer-agent.js:80-141 | where the loop breaks depends only on the chunks read up to there |
| StreamProperties.LaterChunksIgnored | app/designer-agent.js:141 | after the parse, later chunks and a later source failure change neither events nor calls |
| StreamProperties.FallbackGate | app/designer-agent.js:147-173 | the recovery runs exactly when the buffer is non-blank and lacks `"image_gen_prompt"`; a raw event carries the whole buffer |
| StreamProperties.FallbackRecovers | app/designer-agent.js:147-175 | when the recovery runs it sends one event, `recovered` exactly when the lenient `content` or `reasoning` pattern matches somewhere, carrying both captures with their `''` and 'Incomplete response' defaults, otherwise the raw buffer |
| StreamProperties.MatchNotBlank | app/designer-agent.js:147-153 | a buffer in which a pattern matches is not blank, so the recovery gate's `trim()` test passes |
| StreamProperties.ContentRecovered | app/designer-agent.js:147-165 | a buffer without `"image_gen_prompt"` in which the lenient `content` pattern matches recovers the leftmost capture |
| StreamProperties.UnparsedRun | app/designer-agent.js:56-179 | a stream that never parses and does not fail sends its partial content, the recovery of its whole text, and `done` |
| StreamProperties.FragmentRecovered | app/designer-agent.js:147-179 | a never-parsing, non-failing stream holding a `"content": "...` fragment sends exactly one `recovered` event with the lenient capture, just before `done` |
| StreamProperties.StreamedThenRecovered | app/designer-agent.js:151-165 | after partial content was streamed, the recovery is never the raw event |
| StreamProperties.BlankStreamOnlyDone | app/designer-agent.js:147-179 | a blank stream that never parses and does not fail sends only `done` |
| StreamProperties.FallbackAfterParse | app/designer-agent.js:141-165 | after a parse of a non-blank buffer without `"image_gen_prompt"`, a `recovered` or `raw` event follows the `complete` event |

## Left out

- index.js (HTTP routing and CORS) is not part of this model.
- Client construction, environment configuration and the system prompt (app/designer-agent.js:10-35) are constants and SDK setup. They are not part of this model.
- The chat-completion request (app/designer-agent.js:39-47) is an input: the deltas it yields and the error it may throw.
- A chunk without `choices` would make the delta access throw. This is not modelled apart from a source failure.
- The grammar behind `JSON.parse` is not modelled; the parse is an input function.
  - A `null` parse result counts as a failed parse, because reading its fields throws inside the same `try`.
  - Parsed fields are modelled as optional strings; values of other JSON types are not.
- The image and upload calls are inputs: their outcomes, plus the record of the calls made.
  - The upload's `folder` option, read from the environment, is not modelled.
  - The image payload is modelled as a string. A `b64_json` of another type is not modelled.
- `JSON.stringify`, `TextEncoder`, the `data: ...` framing and the response headers are not modelled. Events are a datatype.
- `console.error` is not modelled.
- `controller.close()` in the `finally` is not modelled: `Start` returns the queue enqueued before the close.
- Cancellation by the consumer is not modelled.
- Strings are modelled as sequences of Unicode code points; `char` is one code point.
- `.length` and `.slice` (app/designer-agent.js:66-67, 75) count UTF-16 code units, and the model counts code points. No event changes because of this: `StreamProperties.StreamedDeltas` shows that the only partial event carries the whole capture, so the slice always starts at 0.
- The loop is stated for any capture function of the buffer, and `Start` passes it the strict `content` pattern. No behaviour is left out here; the generality only keeps the proof small.
