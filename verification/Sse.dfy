/** The bounded incremental parser of server-sent events, its encoder, and what one pass would read. */
module Sse {
  import opened Prelude
  import opened Text
  import opened Utf8

  const MAX_LINE_BYTES := 64 * 1024
  const MAX_TOTAL_BYTES := 2 * 1024 * 1024
  const MAX_MALFORMED := 8
  const DONE_MARKER := "[DONE]"

  datatype SseError = AfterDone | TotalBytes | LineBytes | MalformedLimit | Truncated

  // ---- one pass over a whole text -----------------------------------------------------------

  function FirstNewline(s: string): (i: nat)
    ensures i <= |s|
  {
    IndexFrom(s, '\n', 0)
  }

  /** The lines a newline has ended. */
  function CompleteLines(text: string): seq<string> {
    var i := FirstNewline(text);
    if i == |text| then [] else [text[..i]] + CompleteLines(text[i + 1..])
  }

  /** What follows the last newline. */
  function Rest(text: string): string {
    var i := FirstNewline(text);
    if i == |text| then text else Rest(text[i + 1..])
  }

  datatype Line = Ignored | Done | Malformed | Payload(json: string)

  function Classify(isObject: string -> bool, raw: string): Line {
    var line := if raw != "" && raw[|raw| - 1] == '\r' then raw[..|raw| - 1] else raw;
    if line == "" || line[0] == ':' then Ignored
    else if !("data:" <= line) then Ignored
    else
      var payload := Trim(line[5..]);
      if payload == "" then Ignored
      else if payload == DONE_MARKER then Done
      else if isObject(payload) then Payload(payload)
      else Malformed
  }

  /** How one reader treats a line; the parser below is the same for every such function. */
  type Classifier = string -> Line

  function ClassifierFor(isObject: string -> bool): Classifier {
    raw => Classify(isObject, raw)
  }

  datatype Parsed = Parsed(payloads: seq<string>, malformed: nat, terminated: bool)

  /** A line in front of what was read behind it. Nothing behind an end marker counts. */
  function Prepend(line: Line, p: Parsed): Parsed {
    match line
    case Ignored => p
    case Done => Parsed([], 0, true)
    case Malformed => Parsed(p.payloads, 1 + p.malformed, p.terminated)
    case Payload(json) => Parsed([json] + p.payloads, p.malformed, p.terminated)
  }

  /** Everything up to the first end marker. */
  function Summarize(lines: seq<Line>): Parsed {
    if lines == [] then Parsed([], 0, false) else Prepend(lines[0], Summarize(lines[1..]))
  }

  function ClassifyAll(classify: Classifier, lines: seq<string>): seq<Line> {
    if lines == [] then [] else [classify(lines[0])] + ClassifyAll(classify, lines[1..])
  }

  function Parse(classify: Classifier, text: string): Parsed {
    Summarize(ClassifyAll(classify, CompleteLines(text)))
  }

  function Merge(a: Parsed, b: Parsed): Parsed {
    if a.terminated then a else Parsed(a.payloads + b.payloads, a.malformed + b.malformed, b.terminated)
  }

  lemma PrependMerge(line: Line, a: Parsed, b: Parsed)
    ensures Prepend(line, Merge(a, b)) == Merge(Prepend(line, a), b)
  {
    if line.Payload? && !a.terminated {
      assert [line.json] + (a.payloads + b.payloads) == [line.json] + a.payloads + b.payloads;
    }
  }

  lemma {:induction false} SummarizeConcat(a: seq<Line>, b: seq<Line>)
    ensures Summarize(a + b) == Merge(Summarize(a), Summarize(b))
  {
    if a == [] {
      assert a + b == b;
      assert [] + Summarize(b).payloads == Summarize(b).payloads;
    } else {
      assert (a + b)[0] == a[0] && (a + b)[1..] == a[1..] + b;
      SummarizeConcat(a[1..], b);
      PrependMerge(a[0], Summarize(a[1..]), Summarize(b));
    }
  }

  lemma {:induction false} ClassifyConcat(classify: Classifier, a: seq<string>, b: seq<string>)
    ensures ClassifyAll(classify, a + b) == ClassifyAll(classify, a) + ClassifyAll(classify, b)
  {
    if a == [] {
      assert a + b == b;
    } else {
      assert (a + b)[0] == a[0] && (a + b)[1..] == a[1..] + b;
      ClassifyConcat(classify, a[1..], b);
    }
  }

  lemma NewlineIsFirst(s: string, i: nat)
    requires i <= |s| && (i < |s| ==> s[i] == '\n') && forall j :: 0 <= j < i ==> s[j] != '\n'
    ensures FirstNewline(s) == i
  {
  }

  lemma LineInFront(line: string, rest: string)
    requires '\n' !in line
    ensures CompleteLines(line + ['\n'] + rest) == [line] + CompleteLines(rest)
    ensures Rest(line + ['\n'] + rest) == Rest(rest)
  {
    var s := line + ['\n'] + rest;
    NewlineIsFirst(s, |line|);
    assert s[..|line|] == line && s[|line| + 1..] == rest;
  }

  lemma {:induction false} LinesConcat(a: string, b: string)
    ensures CompleteLines(a + b) == CompleteLines(a) + CompleteLines(Rest(a) + b)
    ensures Rest(a + b) == Rest(Rest(a) + b)
    decreases |a|
  {
    var i := FirstNewline(a);
    if i < |a| {
      var line, rest := a[..i], a[i + 1..];
      assert a + b == line + ['\n'] + (rest + b);
      LineInFront(line, rest + b);
      LinesConcat(rest, b);
      Associates([line], CompleteLines(rest), CompleteLines(Rest(rest) + b));
    }
  }

  /** Reading on from the unfinished line is reading the whole. */
  lemma ParseMore(classify: Classifier, a: string, b: string)
    ensures Parse(classify, a + b) == Merge(Parse(classify, a), Parse(classify, Rest(a) + b))
    ensures Rest(a + b) == Rest(Rest(a) + b)
  {
    LinesConcat(a, b);
    ClassifyConcat(classify, CompleteLines(a), CompleteLines(Rest(a) + b));
    SummarizeConcat(ClassifyAll(classify, CompleteLines(a)), ClassifyAll(classify, CompleteLines(Rest(a) + b)));
  }

  lemma SummarizeFirst(line: Line, rest: seq<Line>)
    ensures Summarize([line] + rest) == Prepend(line, Summarize(rest))
  {
    assert ([line] + rest)[1..] == rest;
  }

  lemma ClassifyFirst(classify: Classifier, line: string, rest: seq<string>)
    ensures ClassifyAll(classify, [line] + rest) == [classify(line)] + ClassifyAll(classify, rest)
  {
    assert ([line] + rest)[1..] == rest;
  }

  lemma LinesFirst(text: string)
    requires FirstNewline(text) < |text|
    ensures var i := FirstNewline(text);
            CompleteLines(text) == [text[..i]] + CompleteLines(text[i + 1..]) && Rest(text) == Rest(text[i + 1..])
  {
  }

  /** The first complete line comes off the front. */
  lemma ParseFirst(classify: Classifier, text: string)
    requires FirstNewline(text) < |text|
    ensures var i := FirstNewline(text);
            Parse(classify, text) == Prepend(classify(text[..i]), Parse(classify, text[i + 1..]))
    ensures Rest(text) == Rest(text[FirstNewline(text) + 1..])
  {
    var i := FirstNewline(text);
    var lines := CompleteLines(text[i + 1..]);
    LinesFirst(text);
    ClassifyFirst(classify, text[..i], lines);
    SummarizeFirst(classify(text[..i]), ClassifyAll(classify, lines));
  }

  /** Without a newline there is no complete line. */
  lemma ParseNone(classify: Classifier, text: string)
    requires FirstNewline(text) == |text|
    ensures Parse(classify, text) == Parsed([], 0, false) && Rest(text) == text
  {
  }

  // ---- the incremental reader as a function of its state ------------------------------------

  datatype Reader = Reader(buffer: string, totalBytes: nat, malformed: nat, terminated: bool, decoder: Decoder)

  const START := Reader("", 0, 0, false, FRESH)

  datatype Drained = Drained(reader: Reader, payloads: seq<string>, error: Option<SseError>)

  /** The buffer without its first line, and what that line changes. */
  function Consume(s: Reader, line: Line): Reader
    requires FirstNewline(s.buffer) < |s.buffer|
  {
    s.(buffer := s.buffer[FirstNewline(s.buffer) + 1..],
       malformed := s.malformed + (if line.Malformed? then 1 else 0),
       terminated := line.Done?)
  }

  function Yield(line: Line): seq<string> {
    if line.Payload? then [line.json] else []
  }

  /** Consume the complete lines of the buffer, stopping at the end marker. */
  function Drain(classify: Classifier, s: Reader, payloads: seq<string>): Drained
    decreases |s.buffer|
  {
    var i := FirstNewline(s.buffer);
    if i == |s.buffer| then Drained(s, payloads, None)
    else
      var line := classify(s.buffer[..i]);
      var next := Consume(s, line);
      if line.Malformed? && next.malformed > MAX_MALFORMED then Drained(next, payloads, Some(MalformedLimit))
      else if next.terminated then Drained(next, payloads, None)
      else Drain(classify, next, payloads + Yield(line))
  }

  datatype Pushed = Pushed(reader: Reader, result: Result<seq<string>, SseError>)

  /** The last check of a push: an unfinished line may not be too long. */
  function Settle(d: Drained): Pushed {
    if d.error.Some? then Pushed(d.reader, Err(d.error.value))
    else if !d.reader.terminated && |Encode(d.reader.buffer)| > MAX_LINE_BYTES then Pushed(d.reader, Err(LineBytes))
    else Pushed(d.reader, Ok(d.payloads))
  }

  /** The reader with a chunk counted, decoded and appended. */
  function Receive(s: Reader, chunk: seq<Byte>): Reader {
    var (decoder, text) := Decode(s.decoder, chunk);
    Reader(s.buffer + text, s.totalBytes + |chunk|, s.malformed, s.terminated, decoder)
  }

  function Push(classify: Classifier, s: Reader, chunk: seq<Byte>): Pushed {
    if s.terminated then Pushed(s, Err(AfterDone))
    else if chunk == [] then Pushed(s, Ok([]))
    else if s.totalBytes + |chunk| > MAX_TOTAL_BYTES then
      Pushed(s.(totalBytes := s.totalBytes + |chunk|), Err(TotalBytes))
    else Settle(Drain(classify, Receive(s, chunk), []))
  }

  datatype Fed = Fed(reader: Reader, payloads: seq<string>)

  /** Push chunks one after the other; the first throw ends the stream. */
  function Feed(classify: Classifier, chunks: seq<seq<Byte>>): Result<Fed, SseError> {
    if chunks == [] then Ok(Fed(START, []))
    else
      match Feed(classify, chunks[..|chunks| - 1])
      case Err(e) => Err(e)
      case Ok(fed) =>
        var p := Push(classify, fed.reader, chunks[|chunks| - 1]);
        match p.result
        case Err(e) => Err(e)
        case Ok(payloads) => Ok(Fed(p.reader, fed.payloads + payloads))
  }

  /** The text of a stream, decoded in one go. */
  function TextOf(chunks: seq<seq<Byte>>): string {
    Decode(FRESH, Flatten(chunks)).1
  }

  /** Draining a reader that held `payloads` delivers `p` and leaves the unfinished line. */
  ghost predicate Delivers(s: Reader, payloads: seq<string>, p: Parsed, rest: string, d: Drained) {
    && (s.malformed + p.malformed > MAX_MALFORMED ==> d.error == Some(MalformedLimit))
    && (s.malformed + p.malformed <= MAX_MALFORMED ==>
          && d.error == None && d.payloads == payloads + p.payloads
          && d.reader.terminated == p.terminated && d.reader.malformed == s.malformed + p.malformed
          && d.reader.totalBytes == s.totalBytes && d.reader.decoder == s.decoder
          && (!p.terminated ==> d.reader.buffer == rest))
  }

  /** The line ends the reading: the end marker, or one malformed line too many. */
  predicate Stops(s: Reader, line: Line) {
    line.Done? || (line.Malformed? && s.malformed + 1 > MAX_MALFORMED)
  }

  lemma DeliversMore(s: Reader, line: Line, payloads: seq<string>, p: Parsed, rest: string, d: Drained)
    requires FirstNewline(s.buffer) < |s.buffer| && !line.Done?
    requires Delivers(Consume(s, line), payloads + Yield(line), p, rest, d)
    ensures Delivers(s, payloads, Prepend(line, p), rest, d)
  {
    assert payloads + [] == payloads;
    if line.Payload? {
      assert payloads + [line.json] + p.payloads == payloads + ([line.json] + p.payloads);
    }
  }

  lemma DeliversLast(s: Reader, line: Line, payloads: seq<string>, p: Parsed, rest: string)
    requires FirstNewline(s.buffer) < |s.buffer|
    requires Stops(s, line) && s.malformed <= MAX_MALFORMED
    ensures Delivers(s, payloads, Prepend(line, p), rest,
                     Drained(Consume(s, line), payloads, if line.Done? then None else Some(MalformedLimit)))
  {
    assert payloads + [] == payloads;
  }

  /** One turn of the loop over the complete lines. */
  lemma DrainFirst(classify: Classifier, s: Reader, payloads: seq<string>)
    requires FirstNewline(s.buffer) < |s.buffer| && !s.terminated
    ensures var line := classify(s.buffer[..FirstNewline(s.buffer)]);
            Drain(classify, s, payloads)
            == if Stops(s, line)
               then Drained(Consume(s, line), payloads, if line.Done? then None else Some(MalformedLimit))
               else Drain(classify, Consume(s, line), payloads + Yield(line))
  {
  }

  lemma DrainNone(classify: Classifier, s: Reader, payloads: seq<string>)
    requires FirstNewline(s.buffer) == |s.buffer| && !s.terminated && s.malformed <= MAX_MALFORMED
    ensures Delivers(s, payloads, Parse(classify, s.buffer), Rest(s.buffer), Drain(classify, s, payloads))
  {
    ParseNone(classify, s.buffer);
    assert payloads + [] == payloads;
  }

  lemma DrainStep(classify: Classifier, s: Reader, payloads: seq<string>, line: Line, next: Reader, d: Drained)
    requires FirstNewline(s.buffer) < |s.buffer| && !s.terminated && s.malformed <= MAX_MALFORMED
    requires line == classify(s.buffer[..FirstNewline(s.buffer)]) && next == Consume(s, line)
    requires d == Drain(classify, next, payloads + Yield(line))
    requires Stops(s, line)
             || Delivers(next, payloads + Yield(line), Parse(classify, next.buffer), Rest(next.buffer), d)
    ensures Delivers(s, payloads, Parse(classify, s.buffer), Rest(s.buffer), Drain(classify, s, payloads))
  {
    var p, rest := Parse(classify, next.buffer), Rest(next.buffer);
    ParseFirst(classify, s.buffer);
    DrainFirst(classify, s, payloads);
    if Stops(s, line) {
      DeliversLast(s, line, payloads, p, rest);
    } else {
      DeliversMore(s, line, payloads, p, rest, d);
    }
  }

  lemma {:induction false} DrainIsParse(classify: Classifier, s: Reader, payloads: seq<string>)
    requires !s.terminated && s.malformed <= MAX_MALFORMED
    ensures Delivers(s, payloads, Parse(classify, s.buffer), Rest(s.buffer), Drain(classify, s, payloads))
    decreases |s.buffer|
  {
    var i := FirstNewline(s.buffer);
    if i == |s.buffer| {
      DrainNone(classify, s, payloads);
    } else {
      var line := classify(s.buffer[..i]);
      var next := Consume(s, line);
      if !Stops(s, line) {
        DrainIsParse(classify, next, payloads + Yield(line));
      }
      DrainStep(classify, s, payloads, line, next, Drain(classify, next, payloads + Yield(line)));
    }
  }

  /** A reader and the payloads delivered so far, against a one-pass reading. */
  ghost predicate Holds(fed: Fed, p: Parsed, rest: string, decoder: Decoder, total: nat) {
    && fed.reader.decoder == decoder && fed.reader.totalBytes == total && fed.reader.malformed <= MAX_MALFORMED
    && Parsed(fed.payloads, fed.reader.malformed, fed.reader.terminated) == p
    && (!p.terminated ==> fed.reader.buffer == rest)
  }

  /** The state of the reader is the one-pass reading of the text so far. */
  ghost predicate Represents(classify: Classifier, fed: Fed, chunks: seq<seq<Byte>>) {
    var text := TextOf(chunks);
    Holds(fed, Parse(classify, text), Rest(text), Decode(FRESH, Flatten(chunks)).0, |Flatten(chunks)|)
  }

  /** What makes one more chunk acceptable, said of the texts before and after it. */
  predicate Fits(classify: Classifier, chunks: seq<seq<Byte>>)
    requires chunks != []
  {
    var before, after := TextOf(chunks[..|chunks| - 1]), TextOf(chunks);
    && !Parse(classify, before).terminated
    && (chunks[|chunks| - 1] == []
        || (|Flatten(chunks)| <= MAX_TOTAL_BYTES && WithinCaps(Parse(classify, after), Rest(after))))
  }

  predicate WithinCaps(p: Parsed, rest: string) {
    p.malformed <= MAX_MALFORMED && (p.terminated || |Encode(rest)| <= MAX_LINE_BYTES)
  }

  lemma SettleHolds(payloads: seq<string>, s: Reader, q: Parsed, rest: string, d: Drained)
    requires Delivers(s, [], q, rest, d)
    ensures var p := Merge(Parsed(payloads, s.malformed, false), q);
            && (Settle(d).result.Ok? <==> WithinCaps(p, rest))
            && (Settle(d).result.Ok? ==>
                  Holds(Fed(Settle(d).reader, payloads + Settle(d).result.value), p, rest, s.decoder, s.totalBytes))
  {
    assert [] + q.payloads == q.payloads;
  }

  lemma DecodedSnoc(chunks: seq<seq<Byte>>)
    requires chunks != []
    ensures var before, chunk := chunks[..|chunks| - 1], chunks[|chunks| - 1];
            && Flatten(chunks) == Flatten(before) + chunk
            && TextOf(chunks) == TextOf(before) + Decode(Decode(FRESH, Flatten(before)).0, chunk).1
            && Decode(FRESH, Flatten(chunks)).0 == Decode(Decode(FRESH, Flatten(before)).0, chunk).0
  {
    DecodeConcat(FRESH, Flatten(chunks[..|chunks| - 1]), chunks[|chunks| - 1]);
  }

  /** One more chunk is accepted exactly when it fits, and then the reader reads on. */
  lemma PushRepresents(classify: Classifier, fed: Fed, chunks: seq<seq<Byte>>)
    requires chunks != [] && Represents(classify, fed, chunks[..|chunks| - 1])
    ensures var p := Push(classify, fed.reader, chunks[|chunks| - 1]);
            && (p.result.Ok? <==> Fits(classify, chunks))
            && (p.result.Ok? ==> Represents(classify, Fed(p.reader, fed.payloads + p.result.value), chunks))
  {
    var before, chunk := chunks[..|chunks| - 1], chunks[|chunks| - 1];
    var s := fed.reader;
    DecodedSnoc(chunks);
    if chunk == [] {
      assert Flatten(before) + chunk == Flatten(before);
      assert fed.payloads + [] == fed.payloads;
    } else if !s.terminated && s.totalBytes + |chunk| <= MAX_TOTAL_BYTES {
      PushDrains(classify, fed, TextOf(before), chunk);
    }
  }

  lemma PushDrains(classify: Classifier, fed: Fed, before: string, chunk: seq<Byte>)
    requires Holds(fed, Parse(classify, before), Rest(before), fed.reader.decoder, fed.reader.totalBytes)
    requires !fed.reader.terminated && chunk != [] && fed.reader.totalBytes + |chunk| <= MAX_TOTAL_BYTES
    ensures var (decoder, text) := Decode(fed.reader.decoder, chunk);
            var p := Push(classify, fed.reader, chunk);
            var after := Parse(classify, before + text);
            && (p.result.Ok? <==> WithinCaps(after, Rest(before + text)))
            && (p.result.Ok? ==>
                  Holds(Fed(p.reader, fed.payloads + p.result.value), after, Rest(before + text), decoder,
                        fed.reader.totalBytes + |chunk|))
  {
    var text := Decode(fed.reader.decoder, chunk).1;
    var s := Receive(fed.reader, chunk);
    ParseMore(classify, before, text);
    DrainIsParse(classify, s, []);
    SettleHolds(fed.payloads, s, Parse(classify, s.buffer), Rest(s.buffer), Drain(classify, s, []));
  }

  /** Every chunk fits behind those in front of it. */
  predicate AllFit(classify: Classifier, chunks: seq<seq<Byte>>) {
    chunks == [] || (AllFit(classify, chunks[..|chunks| - 1]) && Fits(classify, chunks))
  }

  /**
   * Whatever the segmentation, the reader reports what one pass over the whole text reports
   * up to the first end marker; and it accepts a segmentation exactly when no chunk follows
   * the end marker and at every chunk boundary the stream, the malformed count and the
   * unfinished line are within their caps.
   */
  lemma {:induction false} SegmentationDoesNotMatter(classify: Classifier, chunks: seq<seq<Byte>>)
    ensures Feed(classify, chunks).Ok? <==> AllFit(classify, chunks)
    ensures Feed(classify, chunks).Ok? ==> Represents(classify, Feed(classify, chunks).value, chunks)
    decreases |chunks|
  {
    if chunks != [] {
      var last := |chunks| - 1;
      SegmentationDoesNotMatter(classify, chunks[..last]);
      if Feed(classify, chunks[..last]).Ok? {
        PushRepresents(classify, Feed(classify, chunks[..last]).value, chunks);
      }
    }
  }

  // ---- the end of the stream -----------------------------------------------------------------

  /** Flush the decoder and a trailing line; only a stream that reached its end marker is complete. */
  function Finish(classify: Classifier, s: Reader): Pushed {
    var trailing := Trim(s.buffer + Flush(s.decoder));
    var emptied := s.(buffer := "", decoder := FRESH);
    if s.terminated then Pushed(emptied, Ok([]))
    else if trailing == "" then Pushed(emptied, Err(Truncated))
    else
      match classify(trailing)
      case Done => Pushed(emptied.(terminated := true), Ok([]))
      case Malformed =>
        var counted := emptied.(malformed := s.malformed + 1);
        Pushed(counted, Err(if counted.malformed > MAX_MALFORMED then MalformedLimit else Truncated))
      case _ => Pushed(emptied, Err(Truncated))
  }

  lemma FinishAccepts(classify: Classifier, s: Reader)
    ensures Finish(classify, s).result.Ok? <==> s.terminated || classify(Trim(s.buffer + Flush(s.decoder))).Done?
    requires classify("") == Ignored
  {
  }

  /**
   * Finishing drops what is left over and counts the line it forms, and succeeds exactly when the
   * end marker was seen, there or before; otherwise the stream was cut short, unless that line is
   * one malformed line too many.
   */
  lemma FinishTells(classify: Classifier, s: Reader)
    requires classify("") == Ignored
    ensures var line := classify(Trim(s.buffer + Flush(s.decoder)));
            var wrong := !s.terminated && line.Malformed?;
            Finish(classify, s)
            == Pushed(s.(buffer := "", decoder := FRESH, terminated := s.terminated || line.Done?,
                      malformed := s.malformed + if wrong then 1 else 0),
                      if s.terminated || line.Done? then Ok([])
                      else Err(if wrong && s.malformed >= 8 then MalformedLimit else Truncated))
  {
  }

  lemma ParseAndTrailing(classify: Classifier, text: string, trailing: string)
    ensures Summarize(ClassifyAll(classify, CompleteLines(text) + [trailing]))
         == Merge(Parse(classify, text), Prepend(classify(trailing), Parsed([], 0, false)))
  {
    ClassifyConcat(classify, CompleteLines(text), [trailing]);
    assert [trailing] == [trailing] + [] && [classify(trailing)] == [classify(trailing)] + [];
    ClassifyFirst(classify, trailing, []);
    SummarizeFirst(classify(trailing), []);
    SummarizeConcat(ClassifyAll(classify, CompleteLines(text)), [classify(trailing)]);
  }

  /**
   * A stream that finishes normally had an end marker, and every well-formed payload in front
   * of it, in a complete line or in the unfinished last one, was delivered.
   */
  lemma AcceptedMeansComplete(classify: Classifier, chunks: seq<seq<Byte>>)
    requires classify("") == Ignored && Feed(classify, chunks).Ok?
    ensures var fed := Feed(classify, chunks).value;
            var (decoder, text) := Decode(FRESH, Flatten(chunks));
            var whole := Summarize(ClassifyAll(classify, CompleteLines(text) + [Trim(Rest(text) + Flush(decoder))]));
            && (Finish(classify, fed.reader).result.Ok? <==> whole.terminated)
            && (Finish(classify, fed.reader).result.Ok? ==> fed.payloads == whole.payloads)
  {
    var fed := Feed(classify, chunks).value;
    var (decoder, text) := Decode(FRESH, Flatten(chunks));
    SegmentationDoesNotMatter(classify, chunks);
    ParseAndTrailing(classify, text, Trim(Rest(text) + Flush(decoder)));
    FinishAccepts(classify, fed.reader);
    assert Parse(classify, text).payloads + [] == Parse(classify, text).payloads;
  }

  // ---- the encoder ---------------------------------------------------------------------------

  datatype EncodeError = FrameNewline

  /** One frame: a data line and the blank line behind it. */
  function Frame(payload: string): string {
    "data: " + payload + "\n\n"
  }

  function EncodeEvent(json: string): Result<string, EncodeError> {
    if '\r' in json || '\n' in json then Err(FrameNewline) else Ok(Frame(json))
  }

  /** Exactly what has no line break of its own is encoded, as one data line and a blank one. */
  lemma EventIsOneFrame(json: string)
    ensures EncodeEvent(json).Ok? <==> '\r' !in json && '\n' !in json
    ensures EncodeEvent(json).Ok? ==>
              CompleteLines(EncodeEvent(json).value) == ["data: " + json, ""] && Rest(EncodeEvent(json).value) == ""
  {
    if EncodeEvent(json).Ok? {
      var line := "data: " + json;
      LineInFront("", "");
      assert "" + ['\n'] + "" == "\n";
      LineInFront(line, "\n");
      assert line + ['\n'] + "\n" == Frame(json);
    }
  }

  function EncodeDone(): string {
    Frame(DONE_MARKER)
  }

  /** What is used of printed objects: braces at both ends, no raw line break, and they parse as objects. */
  predicate PrintedObject(isObject: string -> bool, json: string) {
    && |json| >= 2 && json[0] == '{' && json[|json| - 1] == '}'
    && '\r' !in json && '\n' !in json && isObject(json)
  }

  /** The text of a whole stream of events; an event that cannot be framed is thrown, not sent. */
  function EncodeAll(jsons: seq<string>): string {
    if jsons == [] then EncodeDone()
    else
      var event := EncodeEvent(jsons[0]);
      (if event.Ok? then event.value else "") + EncodeAll(jsons[1..])
  }

  /** What a payload is taken for. */
  function Meaning(isObject: string -> bool, payload: string): Line {
    if payload == DONE_MARKER then Done else if isObject(payload) then Payload(payload) else Malformed
  }

  /** A data line is what stands between the white space behind its colon and at its end, if anything does. */
  lemma DataIsTrimmed(isObject: string -> bool, rest: string)
    ensures Classify(isObject, "data:" + rest)
         == if Trim(rest) == "" then Ignored else Meaning(isObject, Trim(rest))
  {
    var raw := "data:" + rest;
    assert raw[5..] == rest && raw[..5] == "data:";
    if rest != "" && rest[|rest| - 1] == '\r' {
      var line, front := raw[..|raw| - 1], rest[..|rest| - 1];
      assert line == "data:" + front && line[5..] == front && line[..5] == "data:";
      TrimDropsLast(rest);
    } else {
      assert raw[|raw| - 1] == if rest == "" then ':' else rest[|rest| - 1];
    }
  }

  lemma TrimDropsLast(s: string)
    requires s != "" && IsSpace(s[|s| - 1])
    ensures Trim(s[..|s| - 1]) == Trim(s)
  {
    var front := s[..|s| - 1];
    var a, b := TrimParts(front);
    var last := [s[|s| - 1]];
    assert s == front + last;
    if Trim(front) == "" {
      assert s == a + b + last;
      TrimBlank(s);
    } else {
      assert s == a + Trim(front) + (b + last);
      TrimBare(a, Trim(front), b + last);
    }
  }

  /**
   * What every line is: behind `data:`, whatever white space there is around it and whatever
   * ends the line, a payload, the end marker or something malformed; with nothing but white
   * space behind it, or anything else in front, nothing.
   */
  lemma ClassifyData(isObject: string -> bool, a: string, payload: string, b: string)
    requires Blank(a) && Blank(b)
    ensures IsBare(payload) ==> Classify(isObject, "data:" + a + payload + b) == Meaning(isObject, payload)
    ensures Classify(isObject, "data:" + a) == Ignored
  {
    DataIsTrimmed(isObject, a);
    TrimBlank(a);
    if IsBare(payload) {
      assert "data:" + a + payload + b == "data:" + (a + payload + b);
      DataIsTrimmed(isObject, a + payload + b);
      TrimBare(a, payload, b);
    }
  }

  lemma OtherLinesAreIgnored(isObject: string -> bool, raw: string)
    requires !("data:" <= raw)
    ensures Classify(isObject, raw) == Ignored
  {
  }

  /** There are no other lines. */
  lemma EveryLine(raw: string) returns (a: string, payload: string, b: string)
    ensures "data:" <= raw ==> raw == "data:" + a + payload + b && Blank(a) && Blank(b)
    ensures "data:" <= raw ==> if payload == "" then b == "" else IsBare(payload)
  {
    a, payload, b := "", "", "";
    if "data:" <= raw {
      var rest := raw[5..];
      assert raw == "data:" + rest;
      a, b := TrimParts(rest);
      payload := Trim(rest);
      assert "data:" + a + payload + b == "data:" + (a + payload + b);
      if payload == "" {
        a, b := a + b, "";
        assert raw == "data:" + a + payload + b;
      }
    }
  }

  /** The line of an encoded event. */
  lemma EncodedLine(isObject: string -> bool, payload: string)
    requires IsBare(payload)
    ensures Classify(isObject, "data: " + payload) == Meaning(isObject, payload)
  {
    ClassifyData(isObject, " ", payload, "");
    assert "data:" + " " + payload + "" == "data: " + payload;
  }

  lemma FirstLine(line: string, rest: string)
    requires '\n' !in line
    ensures FirstNewline(line + "\n" + rest) == |line|
    ensures (line + "\n" + rest)[..|line|] == line && (line + "\n" + rest)[|line| + 1..] == rest
  {
    NewlineIsFirst(line + "\n" + rest, |line|);
  }

  lemma ParseLine(classify: Classifier, line: string, rest: string)
    requires '\n' !in line
    ensures Parse(classify, line + "\n" + rest) == Prepend(classify(line), Parse(classify, rest))
  {
    FirstLine(line, rest);
    ParseFirst(classify, line + "\n" + rest);
  }

  /** A frame reads as its data line; the blank line is ignored. */
  lemma ParseFrame(classify: Classifier, payload: string, rest: string)
    requires classify("") == Ignored && '\n' !in payload
    ensures Parse(classify, Frame(payload) + rest) == Prepend(classify("data: " + payload), Parse(classify, rest))
  {
    var blank := "" + "\n" + rest;
    assert Frame(payload) + rest == "data: " + payload + "\n" + blank;
    ParseLine(classify, "data: " + payload, blank);
    ParseLine(classify, "", rest);
  }

  /** What the reader must know of lines to read encoded events back. */
  ghost predicate Reads(classify: Classifier, jsons: seq<string>) {
    && classify("") == Ignored && classify("data: " + DONE_MARKER) == Done
    && forall i :: 0 <= i < |jsons| ==> ReadsOne(classify, jsons[i])
  }

  ghost predicate ReadsOne(classify: Classifier, json: string) {
    '\n' !in json && '\r' !in json && classify("data: " + json) == Payload(json)
  }

  lemma PrintedObjectsRead(isObject: string -> bool, jsons: seq<string>)
    requires forall json :: json in jsons ==> PrintedObject(isObject, json)
    ensures Reads(ClassifierFor(isObject), jsons)
  {
    EncodedLine(isObject, DONE_MARKER);
    forall i | 0 <= i < |jsons| ensures ReadsOne(ClassifierFor(isObject), jsons[i]) {
      assert jsons[i] in jsons;
      EncodedLine(isObject, jsons[i]);
    }
  }

  /** The end marker is seen with or without the last newline of its frame. */
  lemma ParseDone(classify: Classifier, cut: nat)
    requires classify("data: " + DONE_MARKER) == Done && cut <= 1
    ensures |EncodeDone()| > 1 && Parse(classify, EncodeDone()[..|EncodeDone()| - cut]) == Parsed([], 0, true)
  {
    var rest := if cut == 0 then "\n" else "";
    assert EncodeDone()[..|EncodeDone()| - cut] == "data: " + DONE_MARKER + "\n" + rest;
    ParseLine(classify, "data: " + DONE_MARKER, rest);
  }

  lemma CutTail(a: string, b: string, cut: nat)
    requires cut <= |b|
    ensures (a + b)[..|a + b| - cut] == a + b[..|b| - cut]
  {
  }

  lemma EncodeAllFirst(jsons: seq<string>)
    requires jsons != [] && '\n' !in jsons[0] && '\r' !in jsons[0]
    ensures EncodeAll(jsons) == Frame(jsons[0]) + EncodeAll(jsons[1..])
  {
  }

  lemma ParseFrameCut(classify: Classifier, json: string, rest: string, later: seq<string>, cut: nat)
    requires classify("") == Ignored && ReadsOne(classify, json)
    requires cut <= |rest| && Parse(classify, rest[..|rest| - cut]) == Parsed(later, 0, true)
    ensures var text := Frame(json) + rest;
            Parse(classify, text[..|text| - cut]) == Parsed([json] + later, 0, true)
  {
    CutTail(Frame(json), rest, cut);
    ParseFrame(classify, json, rest[..|rest| - cut]);
  }

  lemma ReadsRest(classify: Classifier, jsons: seq<string>)
    requires Reads(classify, jsons) && jsons != []
    ensures ReadsOne(classify, jsons[0]) && Reads(classify, jsons[1..])
  {
  }

  /** One pass over an encoded stream, with or without its last newline, reads the events back. */
  lemma {:induction false} ParseEncoded(classify: Classifier, jsons: seq<string>, cut: nat)
    requires Reads(classify, jsons) && cut <= 1
    ensures |EncodeAll(jsons)| > 1
    ensures Parse(classify, EncodeAll(jsons)[..|EncodeAll(jsons)| - cut]) == Parsed(jsons, 0, true)
  {
    if jsons == [] {
      ParseDone(classify, cut);
    } else {
      ReadsRest(classify, jsons);
      ParseEncoded(classify, jsons[1..], cut);
      EncodeAllFirst(jsons);
      ParseFirstOf(classify, jsons[0], EncodeAll(jsons[1..]), EncodeAll(jsons), jsons, cut);
    }
  }

  lemma ParseFirstOf(classify: Classifier, json: string, rest: string, text: string, jsons: seq<string>, cut: nat)
    requires classify("") == Ignored && ReadsOne(classify, json) && jsons != [] && jsons[0] == json
    requires cut <= |rest| && Parse(classify, rest[..|rest| - cut]) == Parsed(jsons[1..], 0, true)
    requires text == Frame(json) + rest
    ensures |text| > 1 && Parse(classify, text[..|text| - cut]) == Parsed(jsons, 0, true)
  {
    ParseFrameCut(classify, json, rest, jsons[1..], cut);
    HeadAndTail(jsons);
  }

  /** Every line of a text, complete or not, is within the line cap. */
  predicate LinesWithin(text: string) {
    var i := FirstNewline(text);
    |Encode(text[..i])| <= MAX_LINE_BYTES && (i < |text| ==> LinesWithin(text[i + 1..]))
  }

  lemma LinesWithinLine(line: string, rest: string)
    requires '\n' !in line && |Encode(line)| <= MAX_LINE_BYTES && LinesWithin(rest)
    ensures LinesWithin(line + "\n" + rest)
  {
    FirstLine(line, rest);
  }

  /** So the unfinished line is within the cap wherever the text is cut. */
  lemma {:induction false} CutLineWithin(text: string, k: nat)
    requires LinesWithin(text) && k <= |text|
    ensures |Encode(Rest(text[..k]))| <= MAX_LINE_BYTES
    decreases |text|
  {
    var i := FirstNewline(text);
    if k <= i {
      NewlineIsFirst(text[..k], k);
      EncodeConcat(text[..k], text[k..i]);
      assert text[..k] + text[k..i] == text[..i] && text[..k][..k] == text[..k];
    } else {
      NewlineIsFirst(text[..k], i);
      CutLineWithin(text[i + 1..], k - i - 1);
      assert text[..k][i + 1..] == text[i + 1..][..k - i - 1];
    }
  }

  lemma FrameWithin(payload: string, rest: string)
    requires '\n' !in payload && |Encode("data: " + payload)| <= MAX_LINE_BYTES && LinesWithin(rest)
    ensures LinesWithin(Frame(payload) + rest)
  {
    var blank := "" + "\n" + rest;
    assert Frame(payload) + rest == "data: " + payload + "\n" + blank;
    LinesWithinLine("", rest);
    LinesWithinLine("data: " + payload, blank);
  }

  lemma {:induction false} EncodeBounded(text: string)
    ensures |text| <= |Encode(text)| <= 4 * |text|
  {
    if text != "" {
      EncodeBounded(text[1..]);
    }
  }

  lemma {:induction false} EncodedWithin(jsons: seq<string>)
    requires forall i :: 0 <= i < |jsons| ==> '\n' !in jsons[i] && '\r' !in jsons[i]
    requires forall i :: 0 <= i < |jsons| ==> |Encode("data: " + jsons[i])| <= MAX_LINE_BYTES
    ensures LinesWithin(EncodeAll(jsons))
  {
    if jsons == [] {
      EncodeBounded("data: " + DONE_MARKER);
      FrameWithin(DONE_MARKER, "");
      assert Frame(DONE_MARKER) + "" == EncodeDone();
    } else {
      EncodedWithin(jsons[1..]);
      EncodeAllFirst(jsons);
      FrameWithin(jsons[0], EncodeAll(jsons[1..]));
    }
  }

  /** A prefix of the chunks decodes to a prefix of the text, and has no more malformed lines. */
  lemma PrefixOfText(classify: Classifier, chunks: seq<seq<Byte>>, n: nat) returns (rest: string)
    requires n <= |chunks|
    ensures TextOf(chunks) == TextOf(chunks[..n]) + rest
    ensures |Flatten(chunks[..n])| <= |Flatten(chunks)|
    ensures Parse(classify, TextOf(chunks[..n])).malformed <= Parse(classify, TextOf(chunks)).malformed
  {
    var tail := FlattenPrefix(chunks, n);
    DecodeConcat(FRESH, Flatten(chunks[..n]), tail);
    rest := Decode(Decode(FRESH, Flatten(chunks[..n])).0, tail).1;
    ParseMore(classify, TextOf(chunks[..n]), rest);
  }

  /** The receiver stops pushing at the end marker. */
  ghost predicate StopsAtMarker(classify: Classifier, chunks: seq<seq<Byte>>) {
    forall n :: 0 <= n < |chunks| ==> !Parse(classify, TextOf(chunks[..n])).terminated
  }

  lemma FitsWithinCaps(classify: Classifier, chunks: seq<seq<Byte>>, text: string, n: nat)
    requires 0 < n <= |chunks| && StopsAtMarker(classify, chunks)
    requires TextOf(chunks) <= text && LinesWithin(text) && |Flatten(chunks)| <= MAX_TOTAL_BYTES
    requires Parse(classify, TextOf(chunks)).malformed == 0
    ensures Fits(classify, chunks[..n])
  {
    var rest := PrefixOfText(classify, chunks, n);
    var before := TextOf(chunks[..n]);
    assert before == text[..|before|];
    CutLineWithin(text, |before|);
    assert chunks[..n][..n - 1] == chunks[..n - 1];
  }

  lemma {:induction false} PrefixesFit(classify: Classifier, chunks: seq<seq<Byte>>, text: string, n: nat)
    requires n <= |chunks| && StopsAtMarker(classify, chunks)
    requires TextOf(chunks) <= text && LinesWithin(text) && |Flatten(chunks)| <= MAX_TOTAL_BYTES
    requires Parse(classify, TextOf(chunks)).malformed == 0
    ensures AllFit(classify, chunks[..n])
  {
    if n > 0 {
      PrefixesFit(classify, chunks, text, n - 1);
      FitsWithinCaps(classify, chunks, text, n);
      TakeTwice(chunks, n, n - 1);
    }
  }

  lemma PlainDecodes(text: string)
    requires text == "" || text[0] == 'd'
    ensures Decode(FRESH, Encode(text)).1 == text
  {
    DecodeEncoded(FRESH, text);
  }

  lemma PrintedHasNoBreak(isObject: string -> bool, jsons: seq<string>)
    requires forall json :: json in jsons ==> PrintedObject(isObject, json)
    ensures forall i :: 0 <= i < |jsons| ==> '\n' !in jsons[i] && '\r' !in jsons[i]
  {
    forall i | 0 <= i < |jsons| ensures '\n' !in jsons[i] && '\r' !in jsons[i] {
      assert jsons[i] in jsons;
    }
  }

  lemma EncodedText(isObject: string -> bool, jsons: seq<string>, sent: string, cut: nat)
    requires forall json :: json in jsons ==> PrintedObject(isObject, json)
    requires cut <= 1 < |EncodeAll(jsons)| && sent == EncodeAll(jsons)[..|EncodeAll(jsons)| - cut]
    ensures Decode(FRESH, Encode(sent)).1 == sent
    ensures Parse(ClassifierFor(isObject), sent) == Parsed(jsons, 0, true)
  {
    PrintedObjectsRead(isObject, jsons);
    PrintedHasNoBreak(isObject, jsons);
    ParseEncoded(ClassifierFor(isObject), jsons, cut);
    EncodedStartsPlain(jsons);
    PlainDecodes(sent);
  }

  /**
   * Encoding events, cutting the bytes anywhere, and pushing the pieces until the reader
   * terminates is accepted within the caps and yields exactly the events, none malformed.
   * The final newline after the end marker may be left unsent.
   */
  lemma EncodedStreamReadsBack(isObject: string -> bool, jsons: seq<string>, chunks: seq<seq<Byte>>, cut: nat)
    requires forall json :: json in jsons ==> PrintedObject(isObject, json)
    requires forall i :: 0 <= i < |jsons| ==> |Encode("data: " + jsons[i])| <= MAX_LINE_BYTES
    requires cut <= 1 < |EncodeAll(jsons)|
    requires Flatten(chunks) == Encode(EncodeAll(jsons)[..|EncodeAll(jsons)| - cut])
    requires |Flatten(chunks)| <= MAX_TOTAL_BYTES && StopsAtMarker(ClassifierFor(isObject), chunks)
    ensures var fed := Feed(ClassifierFor(isObject), chunks);
            fed.Ok? && fed.value.payloads == jsons && fed.value.reader.malformed == 0 && fed.value.reader.terminated
  {
    var classify, text := ClassifierFor(isObject), EncodeAll(jsons);
    EncodedText(isObject, jsons, text[..|text| - cut], cut);
    PrintedHasNoBreak(isObject, jsons);
    EncodedWithin(jsons);
    SegmentationDoesNotMatter(classify, chunks);
    PrefixesFit(classify, chunks, text, |chunks|);
    assert chunks[..|chunks|] == chunks;
  }

  lemma EncodedStartsPlain(jsons: seq<string>)
    requires forall i :: 0 <= i < |jsons| ==> '\n' !in jsons[i] && '\r' !in jsons[i]
    ensures |EncodeAll(jsons)| >= 2 && EncodeAll(jsons)[0] == 'd'
  {
    if jsons != [] {
      EncodeAllFirst(jsons);
    }
  }

  // ---- acceptance, unlike the reading, does depend on the segmentation ------------------------

  lemma {:induction false} DecodeAscii(d: Decoder, bytes: seq<Byte>)
    requires d.needed == 0 && forall i :: 0 <= i < |bytes| ==> bytes[i] < 0x80 && bytes[i] != 10
    ensures var text := Decode(d, bytes).1;
            |text| == |bytes| && '\n' !in text && Decode(d, bytes).0.needed == 0
    decreases bytes
  {
    if bytes != [] {
      var (next, text) := Step(d, bytes[0]);
      DecodeAscii(next, bytes[1..]);
    }
  }

  lemma AsciiLine(classify: Classifier, line: seq<Byte>)
    requires forall i :: 0 <= i < |line| ==> line[i] < 0x80 && line[i] != 10
    requires classify(Decode(FRESH, line).1) == Ignored
    ensures var text := TextOf([line]);
            Parse(classify, text) == Parsed([], 0, false) && Rest(text) == text && |Encode(text)| >= |line|
    ensures var text := TextOf([line + [10]]);
            Parse(classify, text) == Parsed([], 0, false) && Rest(text) == ""
  {
    var (decoder, text) := Decode(FRESH, line);
    FlattenOne(line);
    FlattenOne(line + [10]);
    DecodeAscii(FRESH, line);
    DecodeConcat(FRESH, line, [10]);
    Last(decoder, 10);
    EncodeBounded(text);
    NewlineIsFirst(text, |text|);
    ParseNone(classify, text);
    ParseLine(classify, text, "");
    FirstLine(text, "");
    LinesFirst(text + "\n" + "");
    assert text + "\n" + "" == text + "\n";
  }

  lemma FeedOne(classify: Classifier, chunk: seq<Byte>)
    requires chunk != [] && Parse(classify, TextOf([])) == Parsed([], 0, false)
    ensures Feed(classify, [chunk]).Ok?
        <==> (|chunk| <= MAX_TOTAL_BYTES && WithinCaps(Parse(classify, TextOf([chunk])), Rest(TextOf([chunk]))))
  {
    SegmentationDoesNotMatter(classify, [chunk]);
    FlattenOne(chunk);
    assert [chunk][..1] == [chunk] && [chunk][..0] == [];
  }

  lemma FeedAfterError(classify: Classifier, chunks: seq<seq<Byte>>, chunk: seq<Byte>)
    requires Feed(classify, chunks).Err?
    ensures Feed(classify, chunks + [chunk]) == Feed(classify, chunks)
  {
    assert (chunks + [chunk])[..|chunks|] == chunks;
  }

  /**
   * A comment longer than the line cap is accepted when its newline arrives in the same chunk
   * and refused when the newline arrives in the next one.
   */
  lemma LineCapSeesSegmentation(classify: Classifier, comment: seq<Byte>)
    requires MAX_LINE_BYTES < |comment| < MAX_TOTAL_BYTES
    requires forall i :: 0 <= i < |comment| ==> comment[i] < 0x80 && comment[i] != 10
    requires classify(Decode(FRESH, comment).1) == Ignored
    ensures Feed(classify, [comment + [10]]).Ok?
    ensures Feed(classify, [comment, [10]]).Err?
  {
    AsciiLine(classify, comment);
    ParseNone(classify, "");
    FeedOne(classify, comment + [10]);
    FeedOne(classify, comment);
    FeedAfterError(classify, [comment], [10]);
    assert [comment] + [[10]] == [comment, [10]];
  }

  // ---- the reader ----------------------------------------------------------------------------

  class SseLineReader {
    const isObject: string -> bool
    var buffer: string
    var totalBytes: nat
    var malformed: nat
    var terminated: bool
    var decoder: Decoder

    ghost function State(): Reader
      reads this
    {
      Reader(buffer, totalBytes, malformed, terminated, decoder)
    }

    ghost function Lines(): Classifier {
      ClassifierFor(isObject)
    }

    constructor (isObject: string -> bool)
      ensures this.isObject == isObject && State() == START
    {
      this.isObject := isObject;
      buffer, totalBytes, malformed, terminated, decoder := "", 0, 0, false, FRESH;
    }

    method RecordMalformed() returns (r: Result<Option<string>, SseError>)
      modifies this`malformed
      ensures malformed == old(malformed) + 1
      ensures r == if malformed > MAX_MALFORMED then Err(MalformedLimit) else Ok(None)
    {
      malformed := malformed + 1;
      if malformed > MAX_MALFORMED {
        return Err(MalformedLimit);
      }
      return Ok(None);
    }

    method ConsumeLine(raw: string) returns (r: Result<Option<string>, SseError>)
      modifies this`malformed, this`terminated
      ensures var line := Classify(isObject, raw);
              && terminated == (old(terminated) || line.Done?)
              && malformed == old(malformed) + (if line.Malformed? then 1 else 0)
              && r == if line.Malformed? && malformed > MAX_MALFORMED then Err(MalformedLimit)
                      else Ok(if line.Payload? then Some(line.json) else None)
    {
      var line := if raw != "" && raw[|raw| - 1] == '\r' then raw[..|raw| - 1] else raw;
      if line == "" || line[0] == ':' {
        return Ok(None);
      }
      if !("data:" <= line) {
        return Ok(None);
      }
      var payload := Trim(line[5..]);
      if payload == "" {
        return Ok(None);
      }
      if payload == DONE_MARKER {
        terminated := true;
        return Ok(None);
      }
      if !isObject(payload) {
        r := RecordMalformed();
        return;
      }
      return Ok(Some(payload));
    }

    method ConsumeLines() returns (payloads: seq<string>, error: Option<SseError>)
      requires !terminated
      modifies this`buffer, this`malformed, this`terminated
      ensures Drained(State(), payloads, error) == Drain(Lines(), old(State()), [])
    {
      payloads, error := [], None;
      while true
        invariant !terminated && error == None
        invariant decoder == old(decoder) && totalBytes == old(totalBytes)
        invariant Drain(Lines(), State(), payloads) == Drain(Lines(), old(State()), [])
        decreases |buffer|
      {
        var index := FirstNewline(buffer);
        if index == |buffer| {
          break;
        }
        ghost var before := State();
        var raw := buffer[..index];
        buffer := buffer[index + 1..];
        var payload := ConsumeLine(raw);
        assert State() == Consume(before, Classify(isObject, raw));
        if payload.Err? {
          error := Some(payload.error);
          return;
        }
        if payload.value.Some? {
          payloads := payloads + [payload.value.value];
        } else {
          assert payloads + [] == payloads;
        }
        if terminated {
          return;
        }
      }
    }

    method PushChunk(chunk: seq<Byte>) returns (r: Result<seq<string>, SseError>)
      modifies this
      ensures Pushed(State(), r) == Push(Lines(), old(State()), chunk)
    {
      if terminated {
        return Err(AfterDone);
      }
      if chunk == [] {
        return Ok([]);
      }
      totalBytes := totalBytes + |chunk|;
      if totalBytes > MAX_TOTAL_BYTES {
        return Err(TotalBytes);
      }
      var (next, text) := Decode(decoder, chunk);
      decoder, buffer := next, buffer + text;
      assert State() == Receive(old(State()), chunk);
      r := ConsumeReceived();
    }

    method ConsumeReceived() returns (r: Result<seq<string>, SseError>)
      requires !terminated
      modifies this`buffer, this`malformed, this`terminated
      ensures Pushed(State(), r) == Settle(Drain(Lines(), old(State()), []))
    {
      var payloads, error := ConsumeLines();
      if error.Some? {
        return Err(error.value);
      }
      if terminated {
        return Ok(payloads);
      }
      if |Encode(buffer)| > MAX_LINE_BYTES {
        return Err(LineBytes);
      }
      return Ok(payloads);
    }

    method Finished() returns (r: Result<seq<string>, SseError>)
      modifies this
      ensures Pushed(State(), r) == Finish(Lines(), old(State()))
    {
      var trailing := Trim(buffer + Flush(decoder));
      buffer, decoder := "", FRESH;
      if trailing != "" && !terminated {
        var consumed := ConsumeLine(trailing);
        if consumed.Err? {
          return Err(consumed.error);
        }
      }
      if !terminated {
        return Err(Truncated);
      }
      return Ok([]);
    }
  }
}
