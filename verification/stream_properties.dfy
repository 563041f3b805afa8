/**
 * What the event stream of `handleDesignRequest` promises, proved about `Run`
 * and `RunCalls` (and so about `Start`, which enqueues exactly `Run`):
 * progressive `content` arrives as at most one partial event carrying the
 * whole closed string, events come in a fixed order, the image job runs at
 * most once, chunks after the parse are never read, and the post-loop
 * recovery fires exactly when the buffer is neither blank nor mentions the
 * image prompt key.
 */
module StreamProperties {
  import opened Wrappers
  import opened JsText
  import opened FieldExtractor
  import opened DesignerAgent

  // ---------------------------------------------------------------------------
  // The buffer

  /** The buffer only grows: the text of fewer chunks is a prefix of the text
      of more chunks. */
  lemma {:induction false} ReceivedGrows(chunks: seq<Chunk>, j: nat, k: nat)
    requires j <= k <= |chunks|
    ensures Received(chunks, j) <= Received(chunks, k)
    decreases k - j
  {
    if j < k {
      ReceivedGrows(chunks, j, k - 1);
      assert Received(chunks, k) == Received(chunks, k - 1) + ChunkText(chunks[k - 1]);
    }
  }

  /** The buffer after `k` chunks depends on those chunks only. */
  lemma {:induction false} ReceivedPrefix(a: seq<Chunk>, b: seq<Chunk>, k: nat)
    requires k <= |a| && k <= |b| && a[..k] == b[..k]
    ensures Received(a, k) == Received(b, k)
  {
    if k > 0 {
      assert a[k - 1] == a[..k][k - 1] == b[..k][k - 1] == b[k - 1];
      assert a[..k - 1] == a[..k][..k - 1];
      assert b[..k - 1] == b[..k][..k - 1];
      ReceivedPrefix(a, b, k - 1);
    }
  }

  // ---------------------------------------------------------------------------
  // Progressive content

  /** What a capture shows of `buffer`: its value, `""` when there is none. */
  function Shown(capture: string -> Option<string>, buffer: string): string {
    capture(buffer).GetOr("")
  }

  /** The partial events a capture of `buffer` stands for: none while the
      capture is absent or empty, else one carrying all of it. */
  function ShownEvents(capture: string -> Option<string>, buffer: string): seq<Event> {
    if Shown(capture, buffer) == "" then [] else [Partial(Shown(capture, buffer))]
  }

  /** The capture of `content` that partial events stream, `""` when none. */
  function Streamed(buffer: string): string {
    Shown(StreamedContent, buffer)
  }

  /** The partial events that stream `content` out of `buffer`. */
  function PartialEvents(buffer: string): seq<Event> {
    ShownEvents(StreamedContent, buffer)
  }

  /** A capture is settled once it is truthy: appending text never changes it. */
  ghost predicate Settles(capture: string -> Option<string>) {
    forall s, t :: Truthy(capture(s)) ==> capture(s + t) == capture(s)
  }

  /** The strict `content` capture is settled once truthy. */
  lemma StrictSettles()
    ensures Settles(StreamedContent)
  {
    forall s, t | Truthy(StreamedContent(s)) ensures StreamedContent(s + t) == StreamedContent(s) {
      StrictStable(s, t, ContentField);
    }
  }

  /** The partial events after any number of chunks: none while the strict
      capture of `content` is absent or empty, and then exactly one, carrying
      the whole capture; the cursor is the capture's length. Because the strict
      pattern needs the closing quote and its capture never changes afterwards,
      the progressive stream never delivers `content` piece by piece. */
  lemma StreamedDeltas(chunks: seq<Chunk>, k: nat)
    requires k <= |chunks|
    ensures Absorbed(chunks, k, StreamedContent).events == PartialEvents(Received(chunks, k))
    ensures Absorbed(chunks, k, StreamedContent).sent == |Streamed(Received(chunks, k))|
  {
    StrictSettles();
    BlankHasNoCapture("");
    SettledDeltas(chunks, k, StreamedContent);
  }

  /** For a capture settled once truthy and empty on the empty buffer, the partial events after `k` chunks
      are the one event the capture of the buffer stands for, and the cursor
      is the capture's length. */
  lemma {:induction false} SettledDeltas(chunks: seq<Chunk>, k: nat, capture: string -> Option<string>)
    requires k <= |chunks| && Settles(capture) && Shown(capture, "") == ""
    ensures Absorbed(chunks, k, capture).events == ShownEvents(capture, Received(chunks, k))
    ensures Absorbed(chunks, k, capture).sent == |Shown(capture, Received(chunks, k))|
  {
    if k > 0 {
      SettledDeltas(chunks, k - 1, capture);
      var g := Absorbed(chunks, k - 1, capture);
      AbsorbKeepsDeltas(g, ChunkText(chunks[k - 1]), capture);
      assert Absorbed(chunks, k, capture) == Absorb(g, ChunkText(chunks[k - 1]), capture);
      assert g.buffer + ChunkText(chunks[k - 1]) == Received(chunks, k);
    }
  }

  /** Whatever the capture, the cursor `lastSentContentLength` never decreases
      and events once enqueued stay enqueued: the state after fewer chunks is
      a prefix of the state after more. */
  lemma {:induction false} CursorMonotone(chunks: seq<Chunk>, j: nat, k: nat, capture: string -> Option<string>)
    requires j <= k <= |chunks|
    ensures Absorbed(chunks, j, capture).sent <= Absorbed(chunks, k, capture).sent
    ensures Absorbed(chunks, j, capture).events <= Absorbed(chunks, k, capture).events
    decreases k - j
  {
    if j < k {
      CursorMonotone(chunks, j, k - 1, capture);
      var g := Absorbed(chunks, k - 1, capture);
      assert Absorbed(chunks, k, capture) == Absorb(g, ChunkText(chunks[k - 1]), capture);
      assert g.events <= Absorb(g, ChunkText(chunks[k - 1]), capture).events;
    }
  }

  /** Each partial event carries exactly the characters of the capture past
      the cursor, and only when the capture is non-empty and longer than the
      cursor; the cursor then moves to the capture's end. */
  lemma AbsorbSendsUnsent(g: Progress, text: string, capture: string -> Option<string>)
    ensures var h := Absorb(g, text, capture);
            var m := capture(g.buffer + text);
            && h.buffer == g.buffer + text
            && (h.events != g.events <==> m.Some? && m.value != "" && |m.value| > g.sent)
            && (h.events != g.events ==>
                  h.events == g.events + [Partial(m.value[g.sent..])]
                  && h.sent == |m.value|
                  && m.value == m.value[..g.sent] + h.events[|h.events| - 1].content)
            && (h.events == g.events ==> h.sent == g.sent)
  {
  }

  /** One chunk keeps the partial events and the cursor in step with a
      capture that is settled once truthy. */
  lemma AbsorbKeepsDeltas(g: Progress, text: string, capture: string -> Option<string>)
    requires Settles(capture)
    requires g.events == ShownEvents(capture, g.buffer) && g.sent == |Shown(capture, g.buffer)|
    ensures Absorb(g, text, capture).events == ShownEvents(capture, g.buffer + text)
    ensures Absorb(g, text, capture).sent == |Shown(capture, g.buffer + text)|
  {
    var m := capture(g.buffer + text);
    if m.Some? && m.value != "" && |m.value| > g.sent {
      assert m.value[g.sent..] == m.value;
    }
  }

  /** Every partial event is a prefix of the strict capture of the final
      buffer: what the client shows while streaming is never retracted. */
  lemma PartialsAreCaptured(chunks: seq<Chunk>, j: nat, k: nat)
    requires j <= k <= |chunks|
    ensures Streamed(Received(chunks, j)) == "" || Streamed(Received(chunks, j)) == Streamed(Received(chunks, k))
  {
    var s := Received(chunks, j);
    ReceivedGrows(chunks, j, k);
    var t := Received(chunks, k)[|s|..];
    assert s + t == Received(chunks, k);
    StrictStable(s, t, ContentField);
  }

  /** No strict capture is found in a blank buffer: the pattern starts with a
      quote, which is not white space. */
  lemma BlankHasNoCapture(buffer: string)
    requires IsBlank(buffer)
    ensures Streamed(buffer) == ""
  {
    StrictNeedsClosingQuote(buffer, ContentField);
  }

  // ---------------------------------------------------------------------------
  // The recovery after the loop

  /** The recovery enqueues at most one event, a recovered or a raw one. */
  lemma FallbackAtMostOne(buffer: string)
    ensures |Fallback(buffer)| <= 1
    ensures Fallback(buffer) != [] ==> Fallback(buffer)[0].Recovered? || Fallback(buffer)[0].Raw?
    ensures InPhases(Fallback(buffer), 4, 4)
    ensures forall e :: e in Fallback(buffer) ==> e.Recovered? || e.Raw?
  {
    if Trim(buffer) != [] && !Includes(buffer, ImagePromptKey) {
      var c := Extract(buffer, ContentField, Optional);
      var r := Extract(buffer, ReasoningField, Optional);
      if c.Some? || r.Some? {
        assert Fallback(buffer) == [Recovered(c.GetOr(""), r.GetOr(IncompleteReasoning))];
      } else {
        assert Fallback(buffer) == [Raw(buffer, RawReasoning)];
      }
    } else {
      assert Fallback(buffer) == [];
    }
  }

  // ---------------------------------------------------------------------------
  // Order of events

  /** The place of an event in the stream: partial content, the terminal
      event, the image job's start, its outcome, the recovery, the end. */
  function Phase(e: Event): nat {
    match e
    case Partial(_) => 0
    case Complete(_, _) => 1
    case ImageStarted(_) => 2
    case ImageDone(_, _, _) => 3
    case ImageFailed(_) => 3
    case Recovered(_, _) => 4
    case Raw(_, _) => 4
    case Done => 5
    case StreamError(_) => 5
  }

  /** Phases strictly increase along `events`. */
  predicate Ascending(events: seq<Event>) {
    forall i, j :: 0 <= i < j < |events| ==> Phase(events[i]) < Phase(events[j])
  }

  /** Every event of `events` has a phase in `lo..hi`. */
  predicate InPhases(events: seq<Event>, lo: nat, hi: nat) {
    forall i :: 0 <= i < |events| ==> lo <= Phase(events[i]) <= hi
  }

  lemma AscendingJoin(a: seq<Event>, b: seq<Event>, lo: nat, mid: nat, next: nat, hi: nat)
    requires lo <= mid < next <= hi
    requires Ascending(a) && InPhases(a, lo, mid)
    requires Ascending(b) && InPhases(b, next, hi)
    ensures Ascending(a + b) && InPhases(a + b, lo, hi)
  {
    forall i, j | 0 <= i < j < |a + b| ensures Phase((a + b)[i]) < Phase((a + b)[j]) {
      if j < |a| {
        assert (a + b)[i] == a[i] && (a + b)[j] == a[j];
      } else if i < |a| {
        assert (a + b)[i] == a[i] && (a + b)[j] == b[j - |a|];
      } else {
        assert (a + b)[i] == b[i - |a|] && (a + b)[j] == b[j - |a|];
      }
    }
    forall i | 0 <= i < |a + b| ensures lo <= Phase((a + b)[i]) <= hi {
      if i < |a| {
        assert (a + b)[i] == a[i];
      } else {
        assert (a + b)[i] == b[i - |a|];
      }
    }
  }

  lemma PartialsOrdered(buffer: string)
    ensures Ascending(PartialEvents(buffer)) && InPhases(PartialEvents(buffer), 0, 0)
  {
  }

  lemma AtMostOneOrdered(events: seq<Event>)
    requires |events| <= 1
    ensures Ascending(events)
  {
  }

  lemma FallbackOrdered(buffer: string)
    ensures Ascending(Fallback(buffer)) && InPhases(Fallback(buffer), 4, 4)
  {
    FallbackAtMostOne(buffer);
    AtMostOneOrdered(Fallback(buffer));
  }

  lemma TerminalOrdered(p: Parsed, gen: Generation, upload: Upload)
    ensures Ascending(Terminal(p, gen, upload)) && InPhases(Terminal(p, gen, upload), 1, 3)
  {
  }

  lemma SegmentsOrdered(partials: seq<Event>, middle: seq<Event>, recovery: seq<Event>, last: Event)
    requires Ascending(partials) && InPhases(partials, 0, 0)
    requires Ascending(middle) && InPhases(middle, 1, 3)
    requires Ascending(recovery) && InPhases(recovery, 4, 4)
    requires Phase(last) == 5
    ensures Ascending(partials + middle + recovery + [last])
  {
    AscendingJoin(partials, middle, 0, 0, 1, 3);
    AscendingJoin(partials + middle, recovery, 0, 3, 4, 4);
    AscendingJoin(partials + middle + recovery, [last], 0, 4, 5, 5);
  }

  lemma ParsedRunOrdered(buffer: string, p: Parsed, gen: Generation, upload: Upload)
    ensures Ascending(PartialEvents(buffer) + Terminal(p, gen, upload) + Fallback(buffer) + [Done])
  {
    PartialsOrdered(buffer);
    TerminalOrdered(p, gen, upload);
    FallbackOrdered(buffer);
    SegmentsOrdered(PartialEvents(buffer), Terminal(p, gen, upload), Fallback(buffer), Done);
  }

  lemma UnparsedRunOrdered(buffer: string)
    ensures Ascending(PartialEvents(buffer) + Fallback(buffer) + [Done])
  {
    PartialsOrdered(buffer);
    FallbackOrdered(buffer);
    UnparsedSegmentsOrdered(PartialEvents(buffer), Fallback(buffer), Done);
  }

  lemma FailedRunOrdered(buffer: string, message: string)
    ensures Ascending(PartialEvents(buffer) + [StreamError(message)])
  {
    PartialsOrdered(buffer);
    UnparsedSegmentsOrdered(PartialEvents(buffer), [], StreamError(message));
  }

  lemma UnparsedSegmentsOrdered(partials: seq<Event>, recovery: seq<Event>, last: Event)
    requires Ascending(partials) && InPhases(partials, 0, 0)
    requires Ascending(recovery) && InPhases(recovery, 4, 4)
    requires Phase(last) == 5
    ensures Ascending(partials + [last])
    ensures Ascending(partials + recovery + [last])
  {
    AscendingJoin(partials, [last], 0, 0, 5, 5);
    AscendingJoin(partials, recovery, 0, 0, 4, 4);
    AscendingJoin(partials + recovery, [last], 0, 4, 5, 5);
  }

  /** The stream's events come in a fixed order, each kind at most once:
      partial content, the terminal event, the image job's start and its
      outcome, the recovery, and finally `done` or the error. */
  lemma RunOrdered(src: TokenSource, parse: string -> Option<Parsed>, gen: Generation, upload: Upload)
    ensures Ascending(Run(src, parse, gen, upload))
  {
    var n := |src.chunks|;
    if ParseStop(src.chunks, parse, 0).Some? {
      var j := ParseStop(src.chunks, parse, 0).value;
      ParsedRun(src, parse, gen, upload);
      ParsedRunOrdered(Received(src.chunks, j), parse(Received(src.chunks, j)).value, gen, upload);
    } else if src.failure.Some? {
      FailedRun(src, parse, gen, upload);
      FailedRunOrdered(Received(src.chunks, n), src.failure.value);
    } else {
      UnparsedRun(src, parse, gen, upload);
      UnparsedRunOrdered(Received(src.chunks, n));
    }
  }

  /** A stream whose buffer parses after `j` chunks sends the partial content
      of that buffer, the terminal events of the parse, the recovery of that
      buffer, and `done`. */
  lemma ParsedRun(src: TokenSource, parse: string -> Option<Parsed>, gen: Generation, upload: Upload)
    requires ParseStop(src.chunks, parse, 0).Some?
    ensures Run(src, parse, gen, upload) ==
              PartialEvents(Received(src.chunks, ParseStop(src.chunks, parse, 0).value))
              + Terminal(parse(Received(src.chunks, ParseStop(src.chunks, parse, 0).value)).value, gen, upload)
              + Fallback(Received(src.chunks, ParseStop(src.chunks, parse, 0).value))
              + [Done]
  {
    StreamedDeltas(src.chunks, ParseStop(src.chunks, parse, 0).value);
  }

  /** A stream that fails before any buffer parses sends its partial content
      and then the error event with the source's message. */
  lemma FailedRun(src: TokenSource, parse: string -> Option<Parsed>, gen: Generation, upload: Upload)
    requires ParseStop(src.chunks, parse, 0).None? && src.failure.Some?
    ensures Run(src, parse, gen, upload) ==
              PartialEvents(Received(src.chunks, |src.chunks|)) + [StreamError(src.failure.value)]
  {
    StreamedDeltas(src.chunks, |src.chunks|);
  }

  /** The stream ends with `done`, except when the source fails before any
      buffer parsed: then it ends with the error event carrying the source's
      message. */
  lemma RunEnding(src: TokenSource, parse: string -> Option<Parsed>, gen: Generation, upload: Upload)
    ensures var r := Run(src, parse, gen, upload);
            && r != []
            && r[|r| - 1] == (if ParseStop(src.chunks, parse, 0).None? && src.failure.Some?
                              then StreamError(src.failure.value) else Done)
  {
  }

  // ---------------------------------------------------------------------------
  // The terminal event and the image job

  /** What the terminal `JSON.parse` returned, when a buffer parsed. */
  function TerminalParse(src: TokenSource, parse: string -> Option<Parsed>): (tp: Option<Parsed>)
    ensures tp.Some? <==> ParseStop(src.chunks, parse, 0).Some?
  {
    match ParseStop(src.chunks, parse, 0)
    case Some(j) => parse(Received(src.chunks, j))
    case None => None
  }

  /** The prompt of the image job, when the terminal parse has a truthy one. */
  function ImagePrompt(src: TokenSource, parse: string -> Option<Parsed>): Option<string> {
    var tp := TerminalParse(src, parse);
    if tp.Some? && Truthy(tp.value.imageGenPrompt) then tp.value.imageGenPrompt else None
  }

  /** The image job enqueues its start and then exactly one outcome; it
      always asks for the image, uploads only a truthy `b64_json`, reports
      `done` exactly when the upload succeeded, and otherwise reports the
      message of whichever step failed. */
  lemma ImageJobOutcome(prompt: string, gen: Generation, upload: Upload)
    ensures var ev := ImageJob(prompt, gen, upload);
            var c := ImageCalls(prompt, gen);
            && |ev| == 2 && ev[0] == ImageStarted(prompt)
            && (ev[1].ImageDone? || ev[1].ImageFailed?)
            && 1 <= |c| <= 2 && c[0] == GenerateImage(ImageModel, prompt, ImageSize)
            && (|c| == 2 <==> gen.Generated? && Truthy(gen.b64Json))
            && (ev[1].ImageDone? <==> |c| == 2 && upload.Uploaded?)
            && (ev[1].ImageDone? ==>
                  ev[1] == ImageDone(gen.b64Json.value, prompt, upload.secureUrl)
                  && c[1] == UploadImage(DataUri(ev[1].data)))
            && (ev[1].ImageFailed? ==>
                  ev[1].message == (if gen.GenerationThrew? then gen.message
                                    else if |c| == 1 then MissingImageMessage
                                    else upload.message))
  {
  }

  /** The terminal events hold one `complete` event carrying the parsed
      `content` and `reasoning`, first, and the image job exactly when the
      prompt is truthy. */
  lemma TerminalShape(p: Parsed, gen: Generation, upload: Upload)
    ensures var t := Terminal(p, gen, upload);
            && t[0] == Complete(p.content, p.reasoning)
            && (forall e :: e in t[1..] ==> !e.Complete?)
            && ((exists e :: e in t && e.ImageStarted?) <==> Truthy(p.imageGenPrompt))
            && (Truthy(p.imageGenPrompt) ==> t[1..] == ImageJob(p.imageGenPrompt.value, gen, upload))
  {
    var t := Terminal(p, gen, upload);
    if Truthy(p.imageGenPrompt) {
      assert t[1] == ImageStarted(p.imageGenPrompt.value);
    }
  }

  lemma ParsedSegments(partials: seq<Event>, p: Parsed, gen: Generation, upload: Upload, recovery: seq<Event>)
    requires forall e :: e in partials ==> e.Partial?
    requires forall e :: e in recovery ==> e.Recovered? || e.Raw?
    ensures var r := partials + Terminal(p, gen, upload) + recovery + [Done];
            && Complete(p.content, p.reasoning) in r
            && ((exists e :: e in r && e.ImageStarted?) <==> Truthy(p.imageGenPrompt))
            && (Truthy(p.imageGenPrompt) ==> ImageJob(p.imageGenPrompt.value, gen, upload)[1] in r)
  {
    var t := Terminal(p, gen, upload);
    var r := partials + t + recovery + [Done];
    TerminalShape(p, gen, upload);
    assert t[0] in r;
    if Truthy(p.imageGenPrompt) {
      assert t[1] in r && t[2] in r;
    }
  }

  lemma UnparsedSegments(partials: seq<Event>, recovery: seq<Event>, last: Event)
    requires forall e :: e in partials ==> e.Partial?
    requires forall e :: e in recovery ==> e.Recovered? || e.Raw?
    requires last == Done || last.StreamError?
    ensures forall e :: e in partials + [last] ==> !e.Complete? && !e.ImageStarted?
    ensures forall e :: e in partials + recovery + [last] ==> !e.Complete? && !e.ImageStarted?
  {
  }

  /** The terminal event is enqueued exactly when a buffer parsed, and carries
      the parsed `content` and `reasoning`; the image job runs exactly when the
      parse has a truthy `image_gen_prompt`, its outcome is enqueued, and its
      calls are the only calls the stream makes. */
  lemma RunTerminal(src: TokenSource, parse: string -> Option<Parsed>, gen: Generation, upload: Upload)
    ensures var r := Run(src, parse, gen, upload);
            var tp := TerminalParse(src, parse);
            var prompt := ImagePrompt(src, parse);
            && ((exists e :: e in r && e.Complete?) <==> tp.Some?)
            && (tp.Some? ==> Complete(tp.value.content, tp.value.reasoning) in r)
            && ((exists e :: e in r && e.ImageStarted?) <==> prompt.Some?)
            && (prompt.Some? ==> ImageJob(prompt.value, gen, upload)[1] in r)
            && RunCalls(src, parse, gen) == (if prompt.Some? then ImageCalls(prompt.value, gen) else [])
  {
    match ParseStop(src.chunks, parse, 0)
    case Some(j) =>
      var g := Absorbed(src.chunks, j, StreamedContent);
      StreamedDeltas(src.chunks, j);
      FallbackAtMostOne(g.buffer);
      ParsedSegments(g.events, parse(g.buffer).value, gen, upload, Fallback(g.buffer));
    case None =>
      var g := Absorbed(src.chunks, |src.chunks|, StreamedContent);
      StreamedDeltas(src.chunks, |src.chunks|);
      FallbackAtMostOne(g.buffer);
      UnparsedSegments(g.events, Fallback(g.buffer),
                       if src.failure.Some? then StreamError(src.failure.value) else Done);
  }

  // ---------------------------------------------------------------------------
  // Chunks after the parse

  /** The loop state after `k` chunks depends on those chunks only. */
  lemma {:induction false} AbsorbedPrefix(a: seq<Chunk>, b: seq<Chunk>, k: nat, capture: string -> Option<string>)
    requires k <= |a| && k <= |b| && a[..k] == b[..k]
    ensures Absorbed(a, k, capture) == Absorbed(b, k, capture)
  {
    if k > 0 {
      assert a[k - 1] == a[..k][k - 1] == b[..k][k - 1] == b[k - 1];
      assert a[..k - 1] == a[..k][..k - 1];
      assert b[..k - 1] == b[..k][..k - 1];
      AbsorbedPrefix(a, b, k - 1, capture);
    }
  }

  /** Where the loop stops depends only on the chunks up to that point. */
  lemma {:induction false} ParseStopPrefix(a: seq<Chunk>, b: seq<Chunk>, parse: string -> Option<Parsed>, k: nat, j: nat)
    requires k < j <= |a| && j <= |b| && a[..j] == b[..j]
    requires ParseStop(a, parse, k) == Some(j)
    ensures ParseStop(b, parse, k) == Some(j)
    decreases j - k
  {
    assert a[..k + 1] == a[..j][..k + 1] == b[..j][..k + 1] == b[..k + 1];
    ReceivedPrefix(a, b, k + 1);
    if k + 1 < j {
      ParseStopPrefix(a, b, parse, k + 1, j);
    } else {
      assert ParseStop(b, parse, k) == Some(j);
    }
  }

  /** Once a buffer parses the loop breaks: the chunks after it, and whether
      the source would fail afterwards, change neither the events nor the
      calls. */
  lemma LaterChunksIgnored(src: TokenSource, other: TokenSource, parse: string -> Option<Parsed>,
                           gen: Generation, upload: Upload, j: nat)
    requires ParseStop(src.chunks, parse, 0) == Some(j)
    requires j <= |other.chunks| && other.chunks[..j] == src.chunks[..j]
    ensures Run(other, parse, gen, upload) == Run(src, parse, gen, upload)
    ensures RunCalls(other, parse, gen) == RunCalls(src, parse, gen)
  {
    ParseStopPrefix(src.chunks, other.chunks, parse, 0, j);
    AbsorbedPrefix(src.chunks, other.chunks, j, StreamedContent);
    ReceivedPrefix(src.chunks, other.chunks, j);
  }

  // ---------------------------------------------------------------------------
  // The recovery

  /** The recovery runs exactly when the buffer is not all white space and
      does not contain the literal `"image_gen_prompt"`; the raw event then
      carries the whole buffer. */
  lemma FallbackGate(buffer: string)
    ensures Fallback(buffer) == [] <==> IsBlank(buffer) || Includes(buffer, ImagePromptKey)
    ensures Fallback(buffer) != [] && Fallback(buffer)[0].Raw? ==>
              Fallback(buffer) == [Raw(buffer, RawReasoning)]
  {
    TrimEmptyIffBlank(buffer);
  }

  /** When the stream has sent partial content, the recovery (if it runs) is
      never the raw event: the lenient pattern matches wherever the strict
      one does. */
  lemma StreamedThenRecovered(buffer: string)
    requires Streamed(buffer) != ""
    ensures forall e :: e in Fallback(buffer) ==> e.Recovered?
  {
    StrictImpliesLenient(buffer, ContentField);
  }

  /** When the recovery runs it enqueues one event. That event is `recovered`
      exactly when the lenient pattern matches somewhere for `content` or for
      `reasoning`. It then carries the two lenient captures, with `''` and
      'Incomplete response' standing in for a missing one. Otherwise the
      event is the raw buffer. */
  lemma FallbackRecovers(buffer: string)
    requires !IsBlank(buffer) && !Includes(buffer, ImagePromptKey)
    ensures |Fallback(buffer)| == 1
    ensures Fallback(buffer)[0].Recovered? <==>
              (exists p, q, v :: MatchesAt(buffer, ContentField, Optional, p, q, v))
              || (exists p, q, v :: MatchesAt(buffer, ReasoningField, Optional, p, q, v))
    ensures Fallback(buffer)[0].Recovered? ==>
              Fallback(buffer)[0] == Recovered(Extract(buffer, ContentField, Optional).GetOr(""),
                                               Extract(buffer, ReasoningField, Optional).GetOr(IncompleteReasoning))
    ensures Fallback(buffer)[0].Raw? ==> Fallback(buffer)[0] == Raw(buffer, RawReasoning)
  {
    TrimEmptyIffBlank(buffer);
    ExtractIsLeftmostGreedyMatch(buffer, ContentField, Optional);
    ExtractIsLeftmostGreedyMatch(buffer, ReasoningField, Optional);
  }

  /** A buffer in which the pattern matches is not blank: the match starts
      with a quote. */
  lemma MatchNotBlank(s: string, name: string, closing: Closing, p: nat, q: nat, v: string)
    requires MatchesAt(s, name, closing, p, q, v)
    ensures !IsBlank(s)
  {
    assert s[p] == s[p..p + |Key(name)|][0] == '"';
  }

  /** A buffer without `"image_gen_prompt"` in which the lenient `content`
      pattern matches recovers the capture of the leftmost match. */
  lemma ContentRecovered(buffer: string, p: nat, q: nat, v: string)
    requires MatchesAt(buffer, ContentField, Optional, p, q, v)
    requires !Includes(buffer, ImagePromptKey)
    ensures Extract(buffer, ContentField, Optional).Some?
    ensures Fallback(buffer) == [Recovered(Extract(buffer, ContentField, Optional).GetOr(""),
                                           Extract(buffer, ReasoningField, Optional).GetOr(IncompleteReasoning))]
  {
    MatchNotBlank(buffer, ContentField, Optional, p, q, v);
    Leftmost(buffer, ContentField, Optional);
    TrimEmptyIffBlank(buffer);
  }

  /** A recognisable `"content": "...` fragment in a stream that never parses
      and does not fail yields exactly one `recovered` event. It comes after
      the partial content and just before `done`, and carries the lenient
      capture of the leftmost fragment. */
  lemma FragmentRecovered(src: TokenSource, parse: string -> Option<Parsed>, gen: Generation, upload: Upload,
                          p: nat, q: nat, v: string)
    requires ParseStop(src.chunks, parse, 0).None? && src.failure.None?
    requires MatchesAt(Received(src.chunks, |src.chunks|), ContentField, Optional, p, q, v)
    requires !Includes(Received(src.chunks, |src.chunks|), ImagePromptKey)
    ensures Extract(Received(src.chunks, |src.chunks|), ContentField, Optional).Some?
    ensures Run(src, parse, gen, upload) ==
              PartialEvents(Received(src.chunks, |src.chunks|))
              + [Recovered(Extract(Received(src.chunks, |src.chunks|), ContentField, Optional).GetOr(""),
                           Extract(Received(src.chunks, |src.chunks|), ReasoningField, Optional).GetOr(IncompleteReasoning))]
              + [Done]
  {
    UnparsedRun(src, parse, gen, upload);
    ContentRecovered(Received(src.chunks, |src.chunks|), p, q, v);
  }

  /** A stream that never parses and does not fail sends its partial content,
      the recovery of its whole text, and `done`. */
  lemma UnparsedRun(src: TokenSource, parse: string -> Option<Parsed>, gen: Generation, upload: Upload)
    requires ParseStop(src.chunks, parse, 0).None? && src.failure.None?
    ensures Run(src, parse, gen, upload) ==
              PartialEvents(Received(src.chunks, |src.chunks|)) + Fallback(Received(src.chunks, |src.chunks|)) + [Done]
  {
    StreamedDeltas(src.chunks, |src.chunks|);
  }

  /** A stream whose text is all white space, that never parses and does not
      fail, sends `done` and nothing else: no partial, recovered or raw event. */
  lemma BlankStreamOnlyDone(src: TokenSource, parse: string -> Option<Parsed>, gen: Generation, upload: Upload)
    requires IsBlank(Received(src.chunks, |src.chunks|))
    requires ParseStop(src.chunks, parse, 0).None? && src.failure.None?
    ensures Run(src, parse, gen, upload) == [Done]
  {
    var g := Absorbed(src.chunks, |src.chunks|, StreamedContent);
    StreamedDeltas(src.chunks, |src.chunks|);
    BlankHasNoCapture(g.buffer);
    FallbackGate(g.buffer);
  }

  lemma TwoTerminals(partials: seq<Event>, t: seq<Event>, recovery: seq<Event>, complete: Event)
    requires t != [] && t[0] == complete
    requires recovery != [] && (recovery[0].Recovered? || recovery[0].Raw?)
    ensures var r := partials + t + recovery + [Done];
            exists i, k :: 0 <= i < k < |r| && r[i] == complete && (r[k].Recovered? || r[k].Raw?)
  {
    var r := partials + t + recovery + [Done];
    assert r[|partials|] == complete;
    assert r[|partials| + |t|] == recovery[0];
  }

  /** The recovery is not skipped after a successful parse: when the parsed
      buffer is not blank and lacks the literal `"image_gen_prompt"`, the
      stream sends a second terminal event, recovered or raw, after the
      `complete` one. */
  lemma FallbackAfterParse(src: TokenSource, parse: string -> Option<Parsed>, gen: Generation, upload: Upload, j: nat)
    requires ParseStop(src.chunks, parse, 0) == Some(j)
    requires !IsBlank(Received(src.chunks, j)) && !Includes(Received(src.chunks, j), ImagePromptKey)
    ensures var r := Run(src, parse, gen, upload);
            var p := parse(Received(src.chunks, j)).value;
            exists i, k :: 0 <= i < k < |r| && r[i] == Complete(p.content, p.reasoning)
                           && (r[k].Recovered? || r[k].Raw?)
  {
    var g := Absorbed(src.chunks, j, StreamedContent);
    var p := parse(g.buffer).value;
    FallbackGate(g.buffer);
    FallbackAtMostOne(g.buffer);
    TerminalShape(p, gen, upload);
    TwoTerminals(g.events, Terminal(p, gen, upload), Fallback(g.buffer), Complete(p.content, p.reasoning));
    assert Run(src, parse, gen, upload) == g.events + Terminal(p, gen, upload) + Fallback(g.buffer) + [Done];
  }
}
