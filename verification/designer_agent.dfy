/**
 * The body of the event stream that `handleDesignRequest` returns: it reads the
 * language model's streamed completion chunk by chunk, emits partial `content`
 * as soon as the field's string is closed, stops at the first chunk after which
 * the whole buffer parses as JSON (emitting the terminal event and, at most
 * once, running the image job), runs the regex fallback on the buffer, and ends
 * with a `done` event, or with an `error` event when the token source fails.
 *
 * The token source, `JSON.parse`, the image generator and the uploader are
 * inputs. `Run` specifies the queue of events the stream enqueues, and `Start`
 * is the stream body itself, proved to enqueue exactly `Run`.
 */
module DesignerAgent {
  import opened Wrappers
  import opened JsText
  import opened FieldExtractor

  // ---------------------------------------------------------------------------
  // Inputs

  /** `chunk.choices[0]?.delta?.content` of one completion chunk. */
  type Chunk = Option<string>

  /** The streamed completion: the chunks it yields in order and, when it fails,
      the message of the error it throws when asked for the chunk after the last. */
  datatype TokenSource = TokenSource(chunks: seq<Chunk>, failure: Option<string>)

  /** The fields the stream reads from a successful `JSON.parse`; `None` is
      `undefined`. */
  datatype Parsed = Parsed(content: Option<string>, reasoning: Option<string>,
                           imageGenPrompt: Option<string>)

  /** What the image generator does: throw, or return a response whose
      `data[0].b64_json` is given (`None` when absent). */
  datatype Generation = GenerationThrew(message: string) | Generated(b64Json: Option<string>)

  /** What the uploader does: throw, or return a response with `secure_url`. */
  datatype Upload = UploadThrew(message: string) | Uploaded(secureUrl: string)

  // ---------------------------------------------------------------------------
  // Outputs

  /** One `data: <json>` message of the event stream. */
  datatype Event =
    | Partial(content: string)                                     // {content, streaming: true}
    | Complete(parsedContent: Option<string>, parsedReasoning: Option<string>) // {content, reasoning, complete: true}
    | ImageStarted(prompt: string)                                 // {image_status: 'gen', image_prompt}
    | ImageDone(data: string, prompt: string, url: string)         // {image_status: 'done', image_data, image_prompt, image_url}
    | ImageFailed(message: string)                                 // {image_status: 'error', image_error}
    | Recovered(content: string, reasoning: string)                // {content, reasoning, complete: true, recovered: true}
    | Raw(content: string, reasoning: string)                      // {content, reasoning, complete: true, raw: true}
    | Done                                                         // {done: true}
    | StreamError(message: string)                                 // {error, complete: true}

  /** A call into an external image service. */
  datatype Call =
    | GenerateImage(model: string, prompt: string, size: string)
    | UploadImage(file: string)

  const ContentField := "content"
  const ReasoningField := "reasoning"
  const ImagePromptKey := "\"image_gen_prompt\""
  const ImageModel := "gpt-image-1"
  const ImageSize := "1024x1024"
  const MissingImageMessage := "OpenAI did not return b64_json for the image"
  const IncompleteReasoning := "Incomplete response"
  const RawReasoning := "Failed to parse structured response"

  /** The `data:` URI handed to the uploader. */
  function DataUri(b64: string): string {
    "data:image/png;base64," + b64
  }

  /** JavaScript truthiness of an optional string. */
  predicate Truthy(s: Option<string>) {
    s.Some? && s.value != ""
  }

  /** `content || ''`. */
  function ChunkText(c: Chunk): string {
    c.GetOr("")
  }

  /** The text of the first `k` chunks, concatenated. */
  function Received(chunks: seq<Chunk>, k: nat): string
    requires k <= |chunks|
  {
    if k == 0 then "" else Received(chunks, k - 1) + ChunkText(chunks[k - 1])
  }

  // ---------------------------------------------------------------------------
  // Specification

  /** The loop state that survives a chunk without a successful parse: the
      buffer (`accumulatedContent`), the cursor (`lastSentContentLength`) and
      the events enqueued so far. */
  datatype Progress = Progress(buffer: string, sent: nat, events: seq<Event>)

  /** The strict `content` capture, which is what partial events stream. */
  function StreamedContent(buffer: string): Option<string> {
    Extract(buffer, ContentField, Required)
  }

  /** Appending one chunk's text and emitting the unsent part of what `capture`
      finds in the new buffer; the stream uses `StreamedContent` as `capture`. */
  function Absorb(g: Progress, text: string, capture: string -> Option<string>): Progress {
    var buffer := g.buffer + text;
    var m := capture(buffer);
    if m.Some? && m.value != "" && |m.value| > g.sent then
      Progress(buffer, |m.value|, g.events + [Partial(m.value[g.sent..])])
    else
      Progress(buffer, g.sent, g.events)
  }

  /** The loop state after the first `k` chunks. */
  function Absorbed(chunks: seq<Chunk>, k: nat, capture: string -> Option<string>): (g: Progress)
    requires k <= |chunks|
    ensures g.buffer == Received(chunks, k)
  {
    if k == 0 then Progress("", 0, [])
    else Absorb(Absorbed(chunks, k - 1, capture), ChunkText(chunks[k - 1]), capture)
  }

  /** The first chunk count above `k` after which the buffer parses. */
  function ParseStop(chunks: seq<Chunk>, parse: string -> Option<Parsed>, k: nat): (r: Option<nat>)
    requires k <= |chunks|
    ensures r.Some? ==> k < r.value <= |chunks| && parse(Received(chunks, r.value)).Some?
    ensures forall j :: k < j <= |chunks| && (r.None? || j < r.value) ==>
              parse(Received(chunks, j)).None?
    decreases |chunks| - k
  {
    if k == |chunks| then None
    else if parse(Received(chunks, k + 1)).Some? then Some(k + 1)
    else ParseStop(chunks, parse, k + 1)
  }

  /** The events of the image job for `prompt`. */
  function ImageJob(prompt: string, gen: Generation, upload: Upload): seq<Event> {
    [ImageStarted(prompt)] +
    match gen
    case GenerationThrew(m) => [ImageFailed(m)]
    case Generated(b64) =>
      if !Truthy(b64) then [ImageFailed(MissingImageMessage)]
      else match upload
        case UploadThrew(m) => [ImageFailed(m)]
        case Uploaded(url) => [ImageDone(b64.value, prompt, url)]
  }

  /** The external calls of the image job for `prompt`. */
  function ImageCalls(prompt: string, gen: Generation): seq<Call> {
    [GenerateImage(ImageModel, prompt, ImageSize)] +
    if gen.Generated? && Truthy(gen.b64Json) then [UploadImage(DataUri(gen.b64Json.value))] else []
  }

  /** The post-loop recovery from the final buffer. */
  function Fallback(buffer: string): seq<Event> {
    if Trim(buffer) != [] && !Includes(buffer, ImagePromptKey) then
      var c := Extract(buffer, ContentField, Optional);
      var r := Extract(buffer, ReasoningField, Optional);
      if c.Some? || r.Some? then [Recovered(c.GetOr(""), r.GetOr(IncompleteReasoning))]
      else [Raw(buffer, RawReasoning)]
    else []
  }

  /** The events enqueued by the terminal parse: the terminal event, then the
      image job when the prompt is truthy. */
  function Terminal(p: Parsed, gen: Generation, upload: Upload): seq<Event> {
    [Complete(p.content, p.reasoning)] +
    if Truthy(p.imageGenPrompt) then ImageJob(p.imageGenPrompt.value, gen, upload) else []
  }

  /** Every event the stream enqueues, in order, before it is closed. */
  function Run(src: TokenSource, parse: string -> Option<Parsed>, gen: Generation, upload: Upload): seq<Event> {
    match ParseStop(src.chunks, parse, 0)
    case Some(j) =>
      var g := Absorbed(src.chunks, j, StreamedContent);
      g.events + Terminal(parse(g.buffer).value, gen, upload) + Fallback(g.buffer) + [Done]
    case None =>
      var g := Absorbed(src.chunks, |src.chunks|, StreamedContent);
      if src.failure.Some? then g.events + [StreamError(src.failure.value)]
      else g.events + Fallback(g.buffer) + [Done]
  }

  /** Every call the stream makes to the image services, in order. */
  function RunCalls(src: TokenSource, parse: string -> Option<Parsed>, gen: Generation): seq<Call> {
    match ParseStop(src.chunks, parse, 0)
    case Some(j) =>
      var p := parse(Received(src.chunks, j)).value;
      if Truthy(p.imageGenPrompt) then ImageCalls(p.imageGenPrompt.value, gen) else []
    case None => []
  }

  // ---------------------------------------------------------------------------
  // The stream body

  /** The image job's `try`/`catch` after the `gen` event: generate, check for
      `b64_json`, upload; `outcome` is the one event it enqueues. */
  method GenerateAndUpload(prompt: string, gen: Generation, upload: Upload)
    returns (outcome: Event, calls: seq<Call>)
    ensures [ImageStarted(prompt), outcome] == ImageJob(prompt, gen, upload)
    ensures calls == ImageCalls(prompt, gen)
  {
    calls := [GenerateImage(ImageModel, prompt, ImageSize)];
    match gen {
      case GenerationThrew(m) =>
        outcome := ImageFailed(m);
      case Generated(b64) =>
        if !Truthy(b64) {
          outcome := ImageFailed(MissingImageMessage);
        } else {
          calls := calls + [UploadImage(DataUri(b64.value))];
          match upload {
            case UploadThrew(m) =>
              outcome := ImageFailed(m);
            case Uploaded(url) =>
              outcome := ImageDone(b64.value, prompt, url);
          }
        }
    }
  }

  /** The recovery after the loop: when the buffer is not blank and does not
      mention `"image_gen_prompt"`, one event from the lenient captures, or the
      raw buffer when neither field is found. */
  method Recover(accumulated: string) returns (events: seq<Event>)
    ensures events == Fallback(accumulated)
  {
    events := [];
    if Trim(accumulated) != [] && !Includes(accumulated, ImagePromptKey) {
      var contentMatch := Extract(accumulated, ContentField, Optional);
      var reasoningMatch := Extract(accumulated, ReasoningField, Optional);
      if contentMatch.Some? || reasoningMatch.Some? {
        events := [Recovered(contentMatch.GetOr(""), reasoningMatch.GetOr(IncompleteReasoning))];
      } else {
        events := [Raw(accumulated, RawReasoning)];
      }
    }
  }

  /** The inner `try` after `JSON.parse` succeeded: the terminal event and,
      when the prompt is truthy and no image job ran before, the image job;
      `events` is what it enqueues and `calls` the image-service calls. */
  method Conclude(p: Parsed, triggered: bool, gen: Generation, upload: Upload)
    returns (events: seq<Event>, calls: seq<Call>, triggeredAfter: bool)
    ensures !triggered ==> events == Terminal(p, gen, upload)
    ensures !triggered ==> calls == (if Truthy(p.imageGenPrompt) then ImageCalls(p.imageGenPrompt.value, gen) else [])
    ensures triggered ==> events == [Complete(p.content, p.reasoning)] && calls == [] && triggeredAfter
    ensures triggeredAfter == (triggered || Truthy(p.imageGenPrompt))
  {
    events := [Complete(p.content, p.reasoning)];
    calls := [];
    triggeredAfter := triggered;
    if Truthy(p.imageGenPrompt) && !triggered {
      triggeredAfter := true;
      var prompt := p.imageGenPrompt.value;
      events := events + [ImageStarted(prompt)];
      var outcome;
      outcome, calls := GenerateAndUpload(prompt, gen, upload);
      events := events + [outcome];
    }
  }

  /** The `for await` loop of the stream body, up to its `break` or to the
      error the token source throws: `accumulated` is the buffer, `queue` the
      events enqueued, `calls` the image-service calls made and `thrown` the
      source's error. The loop stops after the chunk count `ParseStop` gives,
      or reads every chunk when no buffer parses. */
  method ReadTokens(src: TokenSource, capture: string -> Option<string>,
                    parse: string -> Option<Parsed>, gen: Generation, upload: Upload)
    returns (accumulated: string, queue: seq<Event>, calls: seq<Call>, thrown: Option<string>)
    ensures ParseStop(src.chunks, parse, 0).Some? ==>
              && accumulated == Received(src.chunks, ParseStop(src.chunks, parse, 0).value) && thrown.None?
              && queue == Absorbed(src.chunks, ParseStop(src.chunks, parse, 0).value, capture).events
                          + Terminal(parse(accumulated).value, gen, upload)
              && calls == RunCalls(src, parse, gen)
    ensures ParseStop(src.chunks, parse, 0).None? ==>
              && accumulated == Received(src.chunks, |src.chunks|)
              && queue == Absorbed(src.chunks, |src.chunks|, capture).events
              && thrown == src.failure && calls == []
  {
    queue, calls := [], [];
    accumulated := "";
    var lastSent: nat := 0;
    var triggered := false;
    thrown := None;
    var i := 0;
    while true
      invariant i <= |src.chunks|
      invariant Progress(accumulated, lastSent, queue) == Absorbed(src.chunks, i, capture)
      invariant ParseStop(src.chunks, parse, 0) == ParseStop(src.chunks, parse, i)
      invariant !triggered && calls == [] && thrown.None?
      decreases |src.chunks| - i
    {
      // the pull of the next chunk, which rejects when the source fails
      if i == |src.chunks| {
        thrown := src.failure;
        break;
      }
      var content := ChunkText(src.chunks[i]);
      i := i + 1;
      accumulated := accumulated + content;

      var contentMatch := capture(accumulated);
      if contentMatch.Some? && contentMatch.value != "" {
        var extracted := contentMatch.value;
        if |extracted| > lastSent {
          queue := queue + [Partial(extracted[lastSent..])];
          lastSent := |extracted|;
        }
      }
      assert Progress(accumulated, lastSent, queue) == Absorbed(src.chunks, i, capture);

      var parsed := parse(accumulated);
      if parsed.Some? {
        var terminal, jobCalls;
        terminal, jobCalls, triggered := Conclude(parsed.value, triggered, gen, upload);
        queue := queue + terminal;
        calls := calls + jobCalls;
        break;
      }
    }
  }

  /** The `start` body of the stream: `queue` is what it enqueues on the
      controller, in order, before the controller is closed, and `calls` the
      image-service calls it makes. */
  method Start(src: TokenSource, parse: string -> Option<Parsed>, gen: Generation, upload: Upload)
    returns (queue: seq<Event>, calls: seq<Call>)
    ensures queue == Run(src, parse, gen, upload)
    ensures calls == RunCalls(src, parse, gen)
  {
    var accumulated, thrown;
    accumulated, queue, calls, thrown := ReadTokens(src, StreamedContent, parse, gen, upload);
    if thrown.Some? {
      // the top-level catch
      queue := queue + [StreamError(thrown.value)];
      return;
    }
    var recovery := Recover(accumulated);
    queue := queue + recovery;
    queue := queue + [Done];
  }
}
