/**
 Incremental framing of server-sent events (`_StreamTranscript.consume` and
 `_StreamProgress.observe_upstream`) and the batch framer of captured text
 (`_parse_captured_sse_text`). Chunks are sequences of decoded characters.
 */
module SseFraming {
  import opened Common
  import opened Text

  const SEP := "\n\n"

  predicate SepAt(s: string, i: nat) {
    i + 1 < |s| && s[i] == '\n' && s[i + 1] == '\n'
  }

  /** The position of the first blank-line separator. */
  function FindSep(s: string): (r: Option<nat>)
    ensures r.Some? ==> SepAt(s, r.value)
  {
    if |s| < 2 then None
    else if SepAt(s, 0) then Some(0)
    else
      var r := FindSep(s[1..]);
      if r.Some? then Some(r.value + 1) else None
  }

  function Frames(s: string): seq<string> {
    var p := FindSep(s);
    if p.None? then [] else [s[..p.value]] + Frames(s[p.value + 2..])
  }

  function Rest(s: string): string {
    var p := FindSep(s);
    if p.None? then s else Rest(s[p.value + 2..])
  }

  // ---- Framing laws -------------------------------------------------------

  lemma {:induction false} FindSepIsFirst(s: string, i: nat)
    ensures FindSep(s).None? ==> !SepAt(s, i)
    ensures FindSep(s).Some? && i < FindSep(s).value ==> !SepAt(s, i)
  {
    if |s| >= 2 && i > 0 {
      FindSepIsFirst(s[1..], i - 1);
    }
  }

  lemma {:induction false} SepUnique(s: string, p: nat)
    requires SepAt(s, p) && forall i: nat :: i < p ==> !SepAt(s, i)
    ensures FindSep(s) == Some(p)
  {
    FindSepIsFirst(s, p);
  }

  /** A first separator stays first when text is appended. */
  lemma {:induction false} FindSepAppend(a: string, b: string)
    requires FindSep(a).Some?
    ensures FindSep(a + b) == FindSep(a)
  {
    var p := FindSep(a).value;
    forall i: nat | i < p
      ensures !SepAt(a + b, i)
    {
      FindSepIsFirst(a, i);
    }
    SepUnique(a + b, p);
  }

  lemma {:induction false} FramesHead(s: string, i: nat, tail: string)
    requires FindSep(s) == Some(i) && tail == s[i + 2..]
    ensures Frames(s) == [s[..i]] + Frames(tail) && Rest(s) == Rest(tail)
  {
  }

  lemma {:induction false} ConsAppend(frame: string, xs: seq<string>, ys: seq<string>)
    ensures [frame] + (xs + ys) == ([frame] + xs) + ys
  {
  }

  lemma {:induction false} SplitAfterHead(a: string, b: string, i: nat, tail: string)
    requires FindSep(a) == Some(i) && tail == a[i + 2..]
    requires Frames(tail + b) == Frames(tail) + Frames(Rest(tail) + b) && Rest(tail + b) == Rest(Rest(tail) + b)
    ensures Frames(a + b) == Frames(a) + Frames(Rest(a) + b) && Rest(a + b) == Rest(Rest(a) + b)
  {
    FindSepAppend(a, b);
    assert (a + b)[..i] == a[..i] && (a + b)[i + 2..] == tail + b;
    FramesHead(a, i, tail);
    FramesHead(a + b, i, tail + b);
    ConsAppend(a[..i], Frames(tail), Frames(Rest(tail) + b));
  }

  /** Framing does not depend on where a text is cut. */
  lemma {:induction false} FramesOfSplit(a: string, b: string)
    ensures Frames(a + b) == Frames(a) + Frames(Rest(a) + b)
    ensures Rest(a + b) == Rest(Rest(a) + b)
    decreases |a|
  {
    var p := FindSep(a);
    if p.Some? {
      FramesOfSplit(a[p.value + 2..], b);
      SplitAfterHead(a, b, p.value, a[p.value + 2..]);
    }
  }

  function JoinFrames(frames: seq<string>): string {
    if frames == [] then [] else frames[0] + SEP + JoinFrames(frames[1..])
  }

  /** Nothing is lost: the frames with their separators and the leftover give the text back. */
  lemma {:induction false} FramesRoundTrip(s: string)
    ensures JoinFrames(Frames(s)) + Rest(s) == s
    ensures FindSep(Rest(s)) == None
    decreases |s|
  {
    var p := FindSep(s);
    if p.Some? {
      var i := p.value;
      FramesRoundTrip(s[i + 2..]);
      assert s == s[..i] + SEP + s[i + 2..];
      assert Frames(s)[1..] == Frames(s[i + 2..]);
    }
  }

  /** A text that the framer returns as one frame when a separator follows it. */
  predicate Frameable(f: string) {
    FindSep(f) == None && (f != [] ==> Last(f) != '\n')
  }

  lemma {:induction false} FrameThenSeparator(f: string, tail: string)
    requires Frameable(f)
    ensures Frames(f + SEP + tail) == [f] + Frames(tail)
    ensures Rest(f + SEP + tail) == Rest(tail)
  {
    var s := f + SEP + tail;
    forall i: nat | i < |f|
      ensures !SepAt(s, i)
    {
      FindSepIsFirst(f, i);
      assert s[i] == f[i];
      if i + 1 < |f| {
        assert s[i + 1] == f[i + 1];
      } else {
        assert f[i] == Last(f);
      }
    }
    SepUnique(s, |f|);
    assert s[..|f|] == f && s[|f| + 2..] == tail;
  }

  /** Conversely, joining frameable texts and framing the result gives exactly those texts. */
  lemma {:induction false} JoinRoundTrip(frames: seq<string>, rest: string)
    requires (forall f :: f in frames ==> Frameable(f)) && FindSep(rest) == None
    ensures Frames(JoinFrames(frames) + rest) == frames
    ensures Rest(JoinFrames(frames) + rest) == rest
  {
    if frames == [] {
      assert JoinFrames(frames) + rest == rest;
    } else {
      var tail := JoinFrames(frames[1..]) + rest;
      assert JoinFrames(frames) + rest == frames[0] + SEP + tail;
      FrameThenSeparator(frames[0], tail);
      JoinRoundTrip(frames[1..], rest);
    }
  }

  // ---- Payloads -----------------------------------------------------------

  /** What a line contributes to the data of its frame. */
  function LineData(line: string): seq<string> {
    if "data:" <= line then [StripLeft(line[5..])] else []
  }

  function DataLines(lines: seq<string>): seq<string> {
    if lines == [] then [] else LineData(lines[0]) + DataLines(lines[1..])
  }

  /** The data lines of a frame, joined and stripped. */
  function Payload(frame: string): string {
    Strip(Join(DataLines(SplitLines(frame)), "\n"))
  }

  /** A payload that carries an event. */
  predicate Carries(payload: string) {
    payload != "" && payload != "[DONE]"
  }

  /** What one block contributes to the payloads. */
  function EventPayload(block: string): seq<string> {
    if Carries(Payload(block)) then [Payload(block)] else []
  }

  function Payloads(frames: seq<string>): seq<string> {
    if frames == [] then []
    else EventPayload(frames[0]) + Payloads(frames[1..])
  }

  // ---- The transcript -----------------------------------------------------

  /** The fields of a decoded chunk that the transcript reads. */
  datatype Chunk = Chunk(
    usage: Option<string>, content: Option<string>, reasoningContent: Option<string>,
    reasoning: Option<string>, toolCalls: Option<string>, finishReason: Option<string>)

  /** The folded result; `toolDeltas` are the tool-call deltas in arrival order. */
  datatype Transcript = Transcript(
    content: seq<string>, reasoning: seq<string>, toolDeltas: seq<string>,
    finishReason: Option<string>, usage: Option<string>)

  const EMPTY := Transcript([], [], [], None, None)

  function One<T>(x: Option<T>): seq<T> {
    if x.Some? then [x.value] else []
  }

  function Or<T>(x: Option<T>, y: Option<T>): Option<T> {
    if x.Some? then x else y
  }

  /** One decoded event; an undecodable payload changes nothing. */
  function Apply(t: Transcript, event: Option<Chunk>): Transcript {
    if event.None? then t else
      var e := event.value;
      Transcript(t.content + One(e.content), t.reasoning + One(Or(e.reasoningContent, e.reasoning)),
                 t.toolDeltas + One(e.toolCalls), Or(e.finishReason, t.finishReason), Or(e.usage, t.usage))
  }

  /** One frame: frames without a payload, the end marker and undecodable payloads change nothing. */
  function ApplyFrame(t: Transcript, frame: string, parse: string -> Option<Chunk>): Transcript {
    var payload := Payload(frame);
    if Carries(payload) then Apply(t, parse(payload)) else t
  }

  function Fold(t: Transcript, frames: seq<string>, parse: string -> Option<Chunk>): Transcript
    decreases |frames|
  {
    if frames == [] then t else Fold(ApplyFrame(t, frames[0], parse), frames[1..], parse)
  }

  lemma {:induction false} FoldAppend(t: Transcript, a: seq<string>, b: seq<string>, parse: string -> Option<Chunk>)
    ensures Fold(t, a + b, parse) == Fold(Fold(t, a, parse), b, parse)
    decreases |a|
  {
    if a == [] {
      assert a + b == b;
    } else {
      assert (a + b)[1..] == a[1..] + b;
      FoldAppend(ApplyFrame(t, a[0], parse), a[1..], b, parse);
    }
  }

  // ---- What a frame's payload is ------------------------------------------

  /** A line of a frame: data behind optional white space, or a line of another kind. */
  datatype Line = Data(pad: string, text: string) | Other(text: string)

  function Written(line: Line): string {
    match line
    case Data(pad, text) => "data:" + pad + text
    case Other(text) => text
  }

  function WrittenAll(lines: seq<Line>): seq<string> {
    if lines == [] then [] else [Written(lines[0])] + WrittenAll(lines[1..])
  }

  function DataTexts(lines: seq<Line>): seq<string> {
    if lines == [] then []
    else (match lines[0] case Data(_, text) => [text] case Other(_) => []) + DataTexts(lines[1..])
  }

  ghost predicate WellFormed(line: Line) {
    && (line.Data? ==> AllSpace(line.pad) && (line.text == "" || !IsSpace(line.text[0])))
    && (line.Other? ==> !("data:" <= line.text))
  }

  lemma {:induction false} LineDataOf(line: Line)
    requires WellFormed(line)
    ensures LineData(Written(line)) == if line.Data? then [line.text] else []
  {
    if line.Data? {
      assert Written(line)[..5] == "data:";
      assert Written(line)[5..] == line.pad + line.text;
      LeftPadded(line.pad, line.text);
    }
  }

  lemma {:induction false} DataLinesOf(lines: seq<Line>)
    requires forall i :: 0 <= i < |lines| ==> WellFormed(lines[i])
    ensures DataLines(WrittenAll(lines)) == DataTexts(lines)
  {
    if lines != [] {
      LineDataOf(lines[0]);
      DataLinesOf(lines[1..]);
      assert WrittenAll(lines)[1..] == WrittenAll(lines[1..]);
    }
  }

  /**
   The payload of a frame is what its data lines say behind their white space, joined with line
   feeds and stripped; lines of other kinds say nothing.
   */
  lemma {:induction false} PayloadIs(lines: seq<Line>)
    requires forall i :: 0 <= i < |lines| ==> WellFormed(lines[i])
    requires forall line :: line in WrittenAll(lines) ==> OneLine(line)
    requires lines != [] ==> Last(WrittenAll(lines)) != ""
    ensures Payload(Join(WrittenAll(lines), "\n")) == Strip(Join(DataTexts(lines), "\n"))
  {
    LinesRoundTrip(WrittenAll(lines));
    DataLinesOf(lines);
  }

  /** An event sent on one line is found again, except that the end marker and nothing at all are no events. */
  lemma {:induction false} EventFound(payload: string)
    requires OneLine(payload) && Trimmed(payload)
    ensures EventPayload("data: " + payload) == if payload == "" || payload == "[DONE]" then [] else [payload]
  {
    var line := Data(" ", payload);
    assert [line][1..] == [] && WrittenAll([]) == [] && DataTexts([]) == [];
    assert WrittenAll([line]) == ["data: " + payload] by {
      assert Written(line) == "data: " + payload;
    }
    assert DataTexts([line]) == [payload];
    PayloadIs([line]);
    StripKeepsTrimmed(payload);
  }

  // ---- What a transcript says ---------------------------------------------

  /** The payloads that decode, decoded. */
  function Decoded(payloads: seq<string>, parse: string -> Option<Chunk>): seq<Chunk> {
    if payloads == [] then []
    else
      var rest := Decoded(payloads[1..], parse);
      match parse(payloads[0]) case Some(e) => [e] + rest case None => rest
  }

  /** What the events that have this field say in it, in order. */
  function Values(events: seq<Chunk>, field: Chunk -> Option<string>): seq<string> {
    if events == [] then []
    else
      var rest := Values(events[1..], field);
      match field(events[0]) case Some(v) => [v] + rest case None => rest
  }

  function ContentOf(e: Chunk): Option<string> { e.content }

  function ToolCallsOf(e: Chunk): Option<string> { e.toolCalls }

  function FinishOf(e: Chunk): Option<string> { e.finishReason }

  function UsageOf(e: Chunk): Option<string> { e.usage }

  /** `reasoning` is an older name of the field, read only where the other one is missing. */
  function ReasoningOf(e: Chunk): Option<string> {
    match e.reasoningContent case Some(r) => Some(r) case None => e.reasoning
  }

  function LatestOf(values: seq<string>, otherwise: Option<string>): Option<string> {
    if values == [] then otherwise else Some(Last(values))
  }

  /** A transcript continued with some events, field by field. */
  function Continued(t: Transcript, events: seq<Chunk>): Transcript {
    Transcript(
      t.content + Values(events, ContentOf),
      t.reasoning + Values(events, ReasoningOf),
      t.toolDeltas + Values(events, ToolCallsOf),
      LatestOf(Values(events, FinishOf), t.finishReason),
      LatestOf(Values(events, UsageOf), t.usage))
  }

  lemma {:induction false} ValuesCons(e: Chunk, more: seq<Chunk>, field: Chunk -> Option<string>)
    ensures Values([e] + more, field)
      == match field(e) case Some(v) => [v] + Values(more, field) case None => Values(more, field)
  {
    assert ([e] + more)[1..] == more;
  }

  lemma {:induction false} ListContinued(before: seq<string>, value: Option<string>, rest: seq<string>)
    ensures before + (match value case Some(v) => [v] + rest case None => rest) == before + One(value) + rest
  {
  }

  lemma {:induction false} LatestContinued(before: Option<string>, value: Option<string>, rest: seq<string>)
    ensures LatestOf(match value case Some(v) => [v] + rest case None => rest, before)
      == LatestOf(rest, Or(value, before))
  {
    if rest != [] && value.Some? {
      assert Last([value.value] + rest) == Last(rest);
    }
  }

  lemma {:induction false} ContinuedCons(t: Transcript, e: Chunk, more: seq<Chunk>)
    ensures Continued(t, [e] + more) == Continued(Apply(t, Some(e)), more)
  {
    ValuesCons(e, more, ContentOf);
    ValuesCons(e, more, ReasoningOf);
    ValuesCons(e, more, ToolCallsOf);
    ValuesCons(e, more, FinishOf);
    ValuesCons(e, more, UsageOf);
    ListContinued(t.content, ContentOf(e), Values(more, ContentOf));
    ListContinued(t.reasoning, ReasoningOf(e), Values(more, ReasoningOf));
    ListContinued(t.toolDeltas, ToolCallsOf(e), Values(more, ToolCallsOf));
    LatestContinued(t.finishReason, FinishOf(e), Values(more, FinishOf));
    LatestContinued(t.usage, UsageOf(e), Values(more, UsageOf));
  }

  lemma {:induction false} ContinuedNothing(t: Transcript)
    ensures Continued(t, []) == t
  {
  }

  lemma {:induction false} DecodedFirst(block: string, more: seq<string>, parse: string -> Option<Chunk>)
    ensures Decoded(EventPayload(block) + more, parse)
      == if Carries(Payload(block)) && parse(Payload(block)).Some?
         then [parse(Payload(block)).value] + Decoded(more, parse) else Decoded(more, parse)
  {
    if Carries(Payload(block)) {
      assert ([Payload(block)] + more)[1..] == more;
    } else {
      assert [] + more == more;
    }
  }

  lemma {:induction false} FoldContinues(t: Transcript, frames: seq<string>, parse: string -> Option<Chunk>)
    ensures Fold(t, frames, parse) == Continued(t, Decoded(Payloads(frames), parse))
    decreases |frames|
  {
    if frames == [] {
      ContinuedNothing(t);
    } else {
      var payload := Payload(frames[0]);
      var later := Decoded(Payloads(frames[1..]), parse);
      DecodedFirst(frames[0], Payloads(frames[1..]), parse);
      FoldContinues(ApplyFrame(t, frames[0], parse), frames[1..], parse);
      if Carries(payload) && parse(payload).Some? {
        ContinuedCons(t, parse(payload).value, later);
      }
    }
  }

  /**
   What a transcript says is read off the decoded events of its text: every content, every
   reasoning and every tool-call delta in order of arrival, the last finish reason and the last
   usage given.
   */
  lemma {:induction false} TranscriptSays(text: string, parse: string -> Option<Chunk>)
    ensures var t, events := Fold(EMPTY, Frames(text), parse), Decoded(Payloads(Frames(text)), parse);
      && t.content == Values(events, ContentOf)
      && t.reasoning == Values(events, ReasoningOf)
      && t.toolDeltas == Values(events, ToolCallsOf)
      && t.finishReason == LatestOf(Values(events, FinishOf), None)
      && t.usage == LatestOf(Values(events, UsageOf), None)
  {
    FoldContinues(EMPTY, Frames(text), parse);
  }

  class StreamTranscript {
    const parse: string -> Option<Chunk>
    var buffer: string
    var transcript: Transcript
    /** All text consumed so far. */
    ghost var fed: string

    constructor (parse: string -> Option<Chunk>)
      ensures Valid() && fed == [] && this.parse == parse
    {
      this.parse := parse;
      buffer, transcript, fed := [], EMPTY, [];
    }

    /** The state is a function of the text fed in, so not of its division into chunks. */
    ghost predicate Valid()
      reads this
    {
      buffer == Rest(fed) && transcript == Fold(EMPTY, Frames(fed), parse)
    }

    method HandleFrame(block: string)
      modifies this`transcript
      ensures transcript == ApplyFrame(old(transcript), block, parse)
    {
      var payload := Payload(block);
      if payload == "" || payload == "[DONE]" {
        return;
      }
      var event := parse(payload);
      if event.None? {
        return;
      }
      ApplyChunk(event.value);
    }

    method ApplyChunk(e: Chunk)
      modifies this`transcript
      ensures transcript == Apply(old(transcript), Some(e))
    {
      if e.usage.Some? {
        transcript := transcript.(usage := e.usage);
      }
      if e.content.Some? {
        transcript := transcript.(content := transcript.content + [e.content.value]);
      }
      var reasoning := e.reasoningContent;
      if reasoning.None? {
        reasoning := e.reasoning;
      }
      if reasoning.Some? {
        transcript := transcript.(reasoning := transcript.reasoning + [reasoning.value]);
      }
      if e.toolCalls.Some? {
        transcript := transcript.(toolDeltas := transcript.toolDeltas + [e.toolCalls.value]);
      }
      if e.finishReason.Some? {
        transcript := transcript.(finishReason := e.finishReason);
      }
    }

    method Consume(chunk: string)
      requires Valid()
      modifies this
      ensures Valid() && fed == old(fed) + chunk
    {
      buffer := buffer + chunk;
      ghost var whole := buffer;
      var p := FindSep(buffer);
      while p.Some?
        invariant p == FindSep(buffer) && fed == old(fed)
        invariant Rest(whole) == Rest(buffer)
        invariant Fold(old(transcript), Frames(whole), parse) == Fold(transcript, Frames(buffer), parse)
        decreases |buffer|
      {
        var block := buffer[..p.value];
        assert Frames(buffer) == [block] + Frames(buffer[p.value + 2..]);
        buffer := buffer[p.value + 2..];
        HandleFrame(block);
        p := FindSep(buffer);
      }
      FramesOfSplit(fed, chunk);
      FoldAppend(EMPTY, Frames(fed), Frames(whole), parse);
      fed := fed + chunk;
    }
  }

  function FrameWeight(frame: string, weigh: string -> nat): nat {
    if Carries(Payload(frame)) then weigh(Payload(frame)) else 0
  }

  function Weight(frames: seq<string>, weigh: string -> nat): nat
    decreases |frames|
  {
    if frames == [] then 0 else FrameWeight(frames[0], weigh) + Weight(frames[1..], weigh)
  }

  lemma {:induction false} WeightAppend(a: seq<string>, b: seq<string>, weigh: string -> nat)
    ensures Weight(a + b, weigh) == Weight(a, weigh) + Weight(b, weigh)
    decreases |a|
  {
    if a == [] {
      assert a + b == b;
    } else {
      assert (a + b)[1..] == a[1..] + b;
      WeightAppend(a[1..], b, weigh);
    }
  }

  function WeightOf(payloads: seq<string>, weigh: string -> nat): nat {
    if payloads == [] then 0 else weigh(payloads[0]) + WeightOf(payloads[1..], weigh)
  }

  /** The characters counted are those of the payloads that are events, each counted once. */
  lemma {:induction false} WeightSays(frames: seq<string>, weigh: string -> nat)
    ensures Weight(frames, weigh) == WeightOf(Payloads(frames), weigh)
  {
    if frames != [] {
      WeightSays(frames[1..], weigh);
      var payload, rest := Payload(frames[0]), Payloads(frames[1..]);
      assert ([payload] + rest)[1..] == rest && [] + rest == rest;
    }
  }

  /** The progress counter's copy of the same framing loop, with its own fold. */
  class StreamProgress {
    /** The generated characters that the event with this payload carries. */
    const weigh: string -> nat
    var buffer: string
    var outputChars: nat
    var chunkCount: nat
    ghost var fed: string

    constructor (weigh: string -> nat)
      ensures Valid() && fed == [] && chunkCount == 0 && this.weigh == weigh
    {
      this.weigh := weigh;
      buffer, outputChars, chunkCount, fed := [], 0, 0, [];
    }

    ghost predicate Valid()
      reads this
    {
      buffer == Rest(fed) && outputChars == Weight(Frames(fed), weigh)
    }

    method ObserveUpstream(chunk: string)
      requires Valid()
      modifies this
      ensures Valid() && fed == old(fed) + chunk && chunkCount == old(chunkCount) + 1
    {
      chunkCount := chunkCount + 1;
      buffer := buffer + chunk;
      ghost var whole := buffer;
      var p := FindSep(buffer);
      while p.Some?
        invariant p == FindSep(buffer) && fed == old(fed) && chunkCount == old(chunkCount) + 1
        invariant Rest(whole) == Rest(buffer)
        invariant old(outputChars) + Weight(Frames(whole), weigh) == outputChars + Weight(Frames(buffer), weigh)
        decreases |buffer|
      {
        var block := buffer[..p.value];
        assert Frames(buffer) == [block] + Frames(buffer[p.value + 2..]);
        buffer := buffer[p.value + 2..];
        outputChars := outputChars + FrameWeight(block, weigh);
        p := FindSep(buffer);
      }
      FramesOfSplit(fed, chunk);
      WeightAppend(Frames(fed), Frames(whole), weigh);
      fed := fed + chunk;
    }
  }

  /** Feeding the chunks of a division of a text, one after the other. */
  function FeedAll(t: Transcript, buffer: string, chunks: seq<string>,
                   parse: string -> Option<Chunk>): (Transcript, string)
    decreases |chunks|
  {
    if chunks == [] then (t, buffer) else
      var whole := buffer + chunks[0];
      FeedAll(Fold(t, Frames(whole), parse), Rest(whole), chunks[1..], parse)
  }

  lemma {:induction false} FeedStep(t: Transcript, buffer: string, chunk: string, more: string,
                                    parse: string -> Option<Chunk>)
    ensures Fold(t, Frames(buffer + (chunk + more)), parse)
      == Fold(Fold(t, Frames(buffer + chunk), parse), Frames(Rest(buffer + chunk) + more), parse)
    ensures Rest(buffer + (chunk + more)) == Rest(Rest(buffer + chunk) + more)
    ensures FindSep(Rest(buffer + chunk)) == None
  {
    var whole := buffer + chunk;
    assert buffer + (chunk + more) == whole + more;
    FramesOfSplit(whole, more);
    FoldAppend(t, Frames(whole), Frames(Rest(whole) + more), parse);
    FramesRoundTrip(whole);
  }

  /** Any division of a text leaves the transcript and the leftover of feeding it whole. */
  lemma {:induction false} ChunkingIrrelevant(t: Transcript, buffer: string, chunks: seq<string>,
                                              parse: string -> Option<Chunk>)
    requires FindSep(buffer) == None
    ensures FeedAll(t, buffer, chunks, parse)
      == (Fold(t, Frames(buffer + Concat(chunks)), parse), Rest(buffer + Concat(chunks)))
    decreases |chunks|
  {
    if chunks == [] {
      assert buffer + Concat(chunks) == buffer;
    } else {
      var whole := buffer + chunks[0];
      FeedStep(t, buffer, chunks[0], Concat(chunks[1..]), parse);
      ChunkingIrrelevant(Fold(t, Frames(whole), parse), Rest(whole), chunks[1..], parse);
    }
  }

  // ---- The batch framer ---------------------------------------------------

  predicate NewlineAt(s: string, i: nat) {
    i < |s| && (s[i] == '\n' || (s[i] == '\r' && i + 1 < |s| && s[i + 1] == '\n'))
  }

  function AfterNewline(s: string, i: nat): (j: nat)
    requires NewlineAt(s, i)
    ensures i < j <= |s|
  {
    if s[i] == '\n' then i + 1 else i + 2
  }

  /** Where the pattern `\r?\n\r?\n` first matches: the start and the end of the match. */
  function FindMatch(s: string, from: nat := 0): (r: Option<(nat, nat)>)
    ensures r.Some? ==> from <= r.value.0 < r.value.1 <= |s|
    decreases |s| - from
  {
    if from >= |s| then None
    else if NewlineAt(s, from) && NewlineAt(s, AfterNewline(s, from)) then
      Some((from, AfterNewline(s, AfterNewline(s, from))))
    else FindMatch(s, from + 1)
  }

  /** The texts that `\r?\n\r?\n` matches. */
  predicate IsBlankLine(m: string) {
    m == "\n\n" || m == "\r\n\n" || m == "\n\r\n" || m == "\r\n\r\n"
  }

  lemma {:induction false} NewlineIs(s: string, i: nat, j: nat)
    requires i <= j <= |s|
    ensures NewlineAt(s, i) ==> s[i..AfterNewline(s, i)] == "\n" || s[i..AfterNewline(s, i)] == "\r\n"
    ensures s[i..j] == "\n" || s[i..j] == "\r\n" ==> NewlineAt(s, i) && AfterNewline(s, i) == j
  {
    if s[i..j] == "\n" {
      assert s[i] == s[i..j][0];
    } else if s[i..j] == "\r\n" {
      assert s[i] == s[i..j][0] && s[i + 1] == s[i..j][1];
    }
  }

  lemma {:induction false} BlankLineAt(s: string, i: nat, j: nat)
    requires i <= j <= |s|
    ensures IsBlankLine(s[i..j]) <==>
      NewlineAt(s, i) && NewlineAt(s, AfterNewline(s, i)) && AfterNewline(s, AfterNewline(s, i)) == j
  {
    var m := s[i..j];
    if IsBlankLine(m) {
      var k := i + if m[0] == '\n' then 1 else 2;
      assert s[i..k] == m[..k - i] && s[k..j] == m[k - i..];
      NewlineIs(s, i, k);
      NewlineIs(s, k, j);
    }
    if NewlineAt(s, i) && NewlineAt(s, AfterNewline(s, i)) && AfterNewline(s, AfterNewline(s, i)) == j {
      var k := AfterNewline(s, i);
      NewlineIs(s, i, k);
      NewlineIs(s, k, j);
      assert m == s[i..k] + s[k..j];
    }
  }

  /** The match found is one of the four blank lines, and none starts before it, or anywhere if there is no match. */
  lemma {:induction false} MatchIsPattern(s: string, from: nat, i: nat, j: nat)
    ensures var m := FindMatch(s, from);
      && (m.Some? ==> IsBlankLine(s[m.value.0..m.value.1]))
      && (from <= i <= j <= |s| && (m.None? || i < m.value.0) ==> !IsBlankLine(s[i..j]))
    decreases |s| - from
  {
    var m := FindMatch(s, from);
    if from < |s| {
      if m.None? || m.value.0 > from {
        MatchIsPattern(s, from + 1, i, j);
      } else {
        BlankLineAt(s, m.value.0, m.value.1);
      }
    }
    if from <= i <= j <= |s| {
      BlankLineAt(s, i, j);
    }
  }

  /** The payloads of the blocks that the batch pattern cuts off, one after the other. */
  function BatchEvents(s: string): seq<string> {
    var m := FindMatch(s);
    if m.None? then [] else EventPayload(s[..m.value.0]) + BatchEvents(s[m.value.1..])
  }

  /** `line.rstrip("\r")` */
  function TrimReturns(s: string): (r: string)
    ensures '\r' !in s ==> r == s
  {
    if s != [] && Last(s) == '\r' then TrimReturns(s[..|s| - 1]) else s
  }

  method LineOf(line: string) returns (found: seq<string>)
    requires '\r' !in line
    ensures found == LineData(line)
  {
    var trimmed := TrimReturns(line);
    found := if "data:" <= trimmed then [StripLeft(trimmed[5..])] else [];
  }

  lemma {:induction false} DataLinesFrom(lines: seq<string>, i: nat)
    requires i < |lines|
    ensures DataLines(lines[i..]) == LineData(lines[i]) + DataLines(lines[i + 1..])
  {
    assert lines[i..][1..] == lines[i + 1..];
  }

  lemma {:induction false} LinesHoldNoReturn(s: string, i: nat)
    requires i < |SplitLines(s)|
    ensures '\r' !in SplitLines(s)[i]
    decreases |s|
  {
    if i > 0 {
      LinesHoldNoReturn(AfterLine(s), i - 1);
    } else if '\r' in FirstLine(s) {
      FirstLineHasNoBreak(s, '\r');
    }
  }

  /** The data lines of one block, as the batch loop collects them. */
  method CollectDataLines(block: string) returns (dataLines: seq<string>)
    ensures dataLines == DataLines(SplitLines(block))
  {
    var lines := SplitLines(block);
    dataLines := [];
    for i := 0 to |lines|
      invariant DataLines(lines) == dataLines + DataLines(lines[i..])
    {
      LinesHoldNoReturn(block, i);
      var found := LineOf(lines[i]);
      DataLinesFrom(lines, i);
      dataLines := dataLines + found;
    }
  }

  lemma {:induction false} EmptyPayload(block: string)
    requires DataLines(SplitLines(block)) == []
    ensures Payload(block) == ""
  {
  }

  method BlockPayload(block: string) returns (found: seq<string>)
    ensures found == EventPayload(block)
  {
    var dataLines := CollectDataLines(block);
    if dataLines == [] {
      EmptyPayload(block);
      return [];
    }
    var payload := Strip(Join(dataLines, "\n"));
    if payload == "" || payload == "[DONE]" {
      return [];
    }
    return [payload];
  }

  lemma {:induction false} AppendThen(a: seq<string>, b: seq<string>, c: seq<string>)
    ensures a + (b + c) == a + b + c
  {
  }

  lemma {:induction false} BatchNext(payloads: seq<string>, buf: string)
    requires FindMatch(buf).Some?
    ensures var m := FindMatch(buf).value;
      payloads + BatchEvents(buf) == payloads + EventPayload(buf[..m.0]) + BatchEvents(buf[m.1..])
  {
    var m := FindMatch(buf).value;
    AppendThen(payloads, EventPayload(buf[..m.0]), BatchEvents(buf[m.1..]));
  }

  /** The batch loop up to decoding: the payloads it counts as events. */
  method BatchPayloads(text: string) returns (payloads: seq<string>)
    ensures payloads == BatchEvents(text)
  {
    payloads := [];
    var buf := text;
    var m := FindMatch(buf);
    while m.Some?
      invariant m == FindMatch(buf)
      invariant BatchEvents(text) == payloads + BatchEvents(buf)
      decreases |buf|
    {
      BatchNext(payloads, buf);
      var block := buf[..m.value.0];
      buf := buf[m.value.1..];
      m := FindMatch(buf);
      var found := BlockPayload(block);
      payloads := payloads + found;
    }
  }

  /** The text with every CRLF replaced by LF. */
  function Normalized(s: string): string {
    if s == [] then []
    else if |s| >= 2 && s[0] == '\r' && s[1] == '\n' then ['\n'] + Normalized(s[2..])
    else [s[0]] + Normalized(s[1..])
  }

  function Shift(m: Option<(nat, nat)>, k: nat): Option<(nat, nat)> {
    if m.None? then None else Some((k + m.value.0, k + m.value.1))
  }

  lemma {:induction false} FindMatchShift(s: string, k: nat, from: nat)
    requires k + from <= |s|
    ensures FindMatch(s, k + from) == Shift(FindMatch(s[k..], from), k)
    decreases |s| - from
  {
    if k + from < |s| {
      FindMatchShift(s, k, from + 1);
    }
  }

  /** The match and the separator found are at the same place, in the text and in its normalization. */
  ghost predicate SamePlace(s: string, m: Option<(nat, nat)>, t: string, p: Option<nat>) {
    && (m.Some? <==> p.Some?)
    && (m.Some? ==>
      && m.value.0 <= m.value.1 <= |s| && p.value + 2 <= |t|
      && Normalized(s[..m.value.0]) == t[..p.value] && Normalized(s[m.value.1..]) == t[p.value + 2..])
  }

  lemma {:induction false} MatchAtStart(s: string)
    requires NewlineAt(s, 0) && NewlineAt(s, AfterNewline(s, 0))
    ensures SamePlace(s, FindMatch(s), Normalized(s), FindSep(Normalized(s)))
  {
    var j := AfterNewline(s, 0);
    var e := AfterNewline(s, j);
    assert Normalized(s) == ['\n'] + Normalized(s[j..]);
    assert s[j..][e - j..] == s[e..];
    assert Normalized(s[j..]) == ['\n'] + Normalized(s[e..]);
    assert SepAt(Normalized(s), 0);
    assert FindMatch(s) == Some((0, e));
    assert Normalized(s)[2..] == Normalized(s[e..]);
  }

  function HeadLength(s: string): (k: nat)
    requires s != []
    ensures 1 <= k <= |s|
  {
    if NewlineAt(s, 0) then AfterNewline(s, 0) else 1
  }

  /** The character that a non-matching start of the text normalizes to, and how much text that takes. */
  function HeadChar(s: string): char
    requires s != []
  {
    if NewlineAt(s, 0) then '\n' else s[0]
  }

  lemma {:induction false} MatchSkips(s: string, k: nat)
    requires s != [] && !(NewlineAt(s, 0) && NewlineAt(s, AfterNewline(s, 0)))
    requires k == HeadLength(s)
    ensures FindMatch(s, 0) == FindMatch(s, k)
  {
    assert FindMatch(s, 0) == FindMatch(s, 1);
  }

  lemma {:induction false} MatchShift(s: string, k: nat)
    requires s != [] && !(NewlineAt(s, 0) && NewlineAt(s, AfterNewline(s, 0)))
    requires k == HeadLength(s)
    ensures FindMatch(s) == Shift(FindMatch(s[k..]), k)
  {
    MatchSkips(s, k);
    FindMatchShift(s, k, 0);
  }

  lemma {:induction false} NormalizedHead(s: string, rest: string)
    requires s != [] && rest == s[HeadLength(s)..]
    ensures Normalized(s) == [HeadChar(s)] + Normalized(rest)
  {
  }

  function ShiftOne(p: Option<nat>): Option<nat> {
    if p.None? then None else Some(p.value + 1)
  }

  lemma {:induction false} NormalizedPrefix(s: string, k: nat, n: nat)
    requires s != [] && k + n <= |s|
    requires k == HeadLength(s)
    ensures Normalized(s[..k + n]) == [HeadChar(s)] + Normalized(s[k..][..n])
  {
    assert s[..k + n][k..] == s[k..][..n];
  }

  lemma {:induction false} SamePlaceShift(s: string, rest: string, m: Option<(nat, nat)>, t: string, p: Option<nat>)
    requires s != [] && rest == s[HeadLength(s)..] && SamePlace(rest, m, t, p)
    ensures SamePlace(s, Shift(m, HeadLength(s)), [HeadChar(s)] + t, ShiftOne(p))
  {
    if m.Some? {
      var k, i := HeadLength(s), p.value;
      NormalizedPrefix(s, k, m.value.0);
      assert rest[m.value.1..] == s[k + m.value.1..];
      assert ([HeadChar(s)] + t)[..i + 1] == [HeadChar(s)] + t[..i];
      assert ([HeadChar(s)] + t)[i + 1 + 2..] == t[i + 2..];
    }
  }

  lemma {:induction false} SepSkips(c: char, t: string)
    requires c == '\n' ==> !NewlineAt(t, 0)
    ensures FindSep([c] + Normalized(t)) == ShiftOne(FindSep(Normalized(t)))
  {
    assert ([c] + Normalized(t))[1..] == Normalized(t);
  }

  lemma {:induction false} MatchLater(s: string, rest: string)
    requires s != [] && !(NewlineAt(s, 0) && NewlineAt(s, AfterNewline(s, 0)))
    requires rest == s[HeadLength(s)..]
    requires SamePlace(rest, FindMatch(rest), Normalized(rest), FindSep(Normalized(rest)))
    ensures SamePlace(s, FindMatch(s), Normalized(s), FindSep(Normalized(s)))
  {
    MatchShift(s, HeadLength(s));
    NormalizedHead(s, rest);
    SepSkips(HeadChar(s), rest);
    SamePlaceShift(s, rest, FindMatch(rest), Normalized(rest), FindSep(Normalized(rest)));
  }

  /** The pattern's first match and the first separator of the normalized text are at the same place. */
  lemma {:induction false} MatchIsSep(s: string)
    ensures SamePlace(s, FindMatch(s), Normalized(s), FindSep(Normalized(s)))
    decreases |s|
  {
    if s == [] {
    } else if NewlineAt(s, 0) && NewlineAt(s, AfterNewline(s, 0)) {
      MatchAtStart(s);
    } else {
      MatchIsSep(s[HeadLength(s)..]);
      MatchLater(s, s[HeadLength(s)..]);
    }
  }

  lemma {:induction false} DataLinesCons(s: string)
    requires s != []
    ensures DataLines(SplitLines(s)) == LineData(FirstLine(s)) + DataLines(SplitLines(AfterLine(s)))
  {
  }

  /** The first line break of the text is a lone return and the next one a CRLF. */
  predicate ReturnThenCrlf(s: string) {
    var i := |FirstLine(s)|;
    i + 2 < |s| && s[i] == s[i + 1] == '\r' && s[i + 2] == '\n'
  }

  lemma {:induction false} DataLinesSkipEmpty(s: string)
    requires s != [] && FirstLine(s) == []
    ensures DataLines(SplitLines(s)) == DataLines(SplitLines(AfterLine(s)))
  {
  }

  lemma {:induction false} ReturnsNormalized(s: string)
    requires |s| > 2 && s[0] == s[1] == '\r' && s[2] == '\n'
    ensures Normalized(s) == ['\r', '\n'] + Normalized(s[3..])
  {
    assert s[1..][2..] == s[3..];
  }

  lemma {:induction false} CrlfThenRest(line: string, rest: string, t: string)
    requires t == line + (['\r', '\n'] + rest) && FirstLine(t) == line
    ensures AfterLine(t) == rest
  {
    assert t[|line|] == '\r' && t[|line| + 1] == '\n';
    assert t[|line| + 2..] == rest;
  }

  lemma {:induction false} NormalizedCons(s: string)
    requires s != [] && s[0] != '\r'
    ensures Normalized(s) == [s[0]] + Normalized(s[1..])
  {
  }

  lemma {:induction false} FirstLineCons(c: char, t: string)
    requires !IsLineBreak(c)
    ensures FirstLine([c] + t) == [c] + FirstLine(t)
  {
    assert ([c] + t)[1..] == t;
  }

  lemma {:induction false} NormalizedBreak(s: string)
    requires s == [] || IsLineBreak(s[0])
    ensures FirstLine(Normalized(s)) == [] && FirstLine(s) == [] && s[0..] == s
  {
  }

  /** Normalizing keeps the first line and acts on what follows it. */
  lemma {:induction false} NormalizedLine(s: string)
    ensures FirstLine(Normalized(s)) == FirstLine(s)
    ensures Normalized(s) == FirstLine(s) + Normalized(s[|FirstLine(s)|..])
  {
    if s == [] || IsLineBreak(s[0]) {
      NormalizedBreak(s);
    } else {
      var t := s[1..];
      NormalizedLine(t);
      NormalizedCons(s);
      FirstLineCons(s[0], t);
      FirstLineCons(s[0], Normalized(t));
      assert s == [s[0]] + t;
      assert t[|FirstLine(t)|..] == s[|FirstLine(t)| + 1..];
    }
  }

  /** A lone return before a CRLF makes a line and an empty line, after normalization only the line. */
  lemma {:induction false} LoneReturnBeforeCrlf(s: string)
    requires ReturnThenCrlf(s)
    ensures AfterLine(s) == s[|FirstLine(s)| + 1..] && FirstLine(AfterLine(s)) == [] && AfterLine(s) != []
    ensures AfterLine(AfterLine(s)) == s[|FirstLine(s)| + 3..]
    ensures AfterLine(Normalized(s)) == Normalized(s[|FirstLine(s)| + 3..])
    ensures Normalized(s) != []
  {
    var i := |FirstLine(s)|;
    NormalizedLine(s);
    ReturnsNormalized(s[i..]);
    assert s[i..][3..] == s[i + 3..];
    CrlfThenRest(FirstLine(s), Normalized(s[i + 3..]), Normalized(s));
    assert s[i + 1..][2..] == s[i + 3..];
  }

  lemma {:induction false} BreakThenRest(line: string, c: char, rest: string, t: string)
    requires t == line + ([c] + Normalized(rest)) && FirstLine(t) == line
    requires c == '\r' ==> !NewlineAt(rest, 0)
    ensures AfterLine(t) == Normalized(rest)
  {
    assert t[|line|] == c;
    assert t[|line| + 1..] == Normalized(rest);
    assert c == '\r' && Normalized(rest) != [] ==> Normalized(rest)[0] != '\n';
  }

  lemma {:induction false} NormalizedAfterLine(s: string)
    requires s != [] && !ReturnThenCrlf(s)
    ensures Normalized(s) != [] && AfterLine(Normalized(s)) == Normalized(AfterLine(s))
  {
    var i := |FirstLine(s)|;
    NormalizedLine(s);
    if i < |s| {
      var k := if NewlineAt(s, i) then AfterNewline(s, i) else i + 1;
      var c := if NewlineAt(s, i) then '\n' else s[i];
      assert s[i..][k - i..] == s[k..];
      assert Normalized(s[i..]) == [c] + Normalized(s[k..]);
      assert c == '\r' ==> !NewlineAt(s[k..], 0);
      BreakThenRest(FirstLine(s), c, s[k..], Normalized(s));
    }
  }

  lemma {:induction false} DataLinesNormalized(s: string)
    ensures DataLines(SplitLines(Normalized(s))) == DataLines(SplitLines(s))
    decreases |s|
  {
    if s != [] {
      NormalizedLine(s);
      if ReturnThenCrlf(s) {
        LoneReturnBeforeCrlf(s);
        DataLinesNormalized(AfterLine(AfterLine(s)));
        DataLinesSkipEmpty(AfterLine(s));
      } else {
        NormalizedAfterLine(s);
        DataLinesNormalized(AfterLine(s));
      }
      DataLinesCons(s);
      DataLinesCons(Normalized(s));
    }
  }

  lemma {:induction false} PayloadsCons(block: string, more: seq<string>)
    ensures Payloads([block] + more) == EventPayload(block) + Payloads(more)
  {
    assert ([block] + more)[1..] == more;
  }

  lemma {:induction false} NormalizedStep(s: string)
    requires FindMatch(s).Some? && FindSep(Normalized(s)).Some?
    requires SamePlace(s, FindMatch(s), Normalized(s), FindSep(Normalized(s)))
    ensures var m := FindMatch(s).value;
      Payloads(Frames(Normalized(s))) == EventPayload(s[..m.0]) + Payloads(Frames(Normalized(s[m.1..])))
  {
    var m, p := FindMatch(s).value, FindSep(Normalized(s)).value;
    assert Frames(Normalized(s)) == [Normalized(s)[..p]] + Frames(Normalized(s)[p + 2..]);
    PayloadsCons(Normalized(s)[..p], Frames(Normalized(s)[p + 2..]));
    DataLinesNormalized(s[..m.0]);
  }

  /**
   On every text the batch framer finds the payloads that the incremental framer finds in
   the text with CRLF normalized to LF.
   */
  lemma {:induction false} BatchIsNormalizedFraming(s: string)
    ensures BatchEvents(s) == Payloads(Frames(Normalized(s)))
    decreases |s|
  {
    MatchIsSep(s);
    var m := FindMatch(s);
    if m.Some? {
      BatchIsNormalizedFraming(s[m.value.1..]);
      NormalizedStep(s);
    }
  }

  lemma {:induction false} NormalizedIsSame(s: string)
    requires '\r' !in s
    ensures Normalized(s) == s
  {
    if s != [] {
      NormalizedIsSame(s[1..]);
    }
  }

  /** On text without carriage returns both framers find the same payloads. */
  lemma {:induction false} BatchAgreesOnLf(s: string)
    requires '\r' !in s
    ensures BatchEvents(s) == Payloads(Frames(s))
  {
    BatchIsNormalizedFraming(s);
    NormalizedIsSame(s);
  }

  /** The incremental framer finds no frame at all in text whose line feeds all follow a return. */
  lemma {:induction false} CrlfHidesFrames(s: string)
    requires forall i :: 0 <= i < |s| && s[i] == '\n' ==> i > 0 && s[i - 1] == '\r'
    ensures Frames(s) == [] && Rest(s) == s
  {
  }
}
