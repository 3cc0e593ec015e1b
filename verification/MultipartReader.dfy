/** The collector as the mutable object it is, and the chunked read under a byte ceiling. */
module MultipartReader {
  import opened Wrappers
  import opened Text
  import opened Multipart

  /** A mutable byte buffer. */
  class Bytearray {
    var bytes: Bytes

    constructor (bytes: Bytes)
      ensures this.bytes == bytes
    {
      this.bytes := bytes;
    }
  }

  /** `_MultipartCollector`. When the file part ends, `fileData` becomes the part buffer itself, not a
      copy of it. */
  class MultipartCollector {
    const cfg: Config
    var fileData: Bytearray?
    var filename: Option<string>
    var fields: map<string, string>
    var headers: map<Bytes, Bytes>
    var headerField: Bytes
    var headerValue: Bytes
    var partName: Option<string>
    var partIsFile: bool
    var partBuffer: Bytearray

    constructor (cfg: Config)
      ensures this.cfg == cfg && View() == EMPTY && fresh(partBuffer) && fileData == null
    {
      this.cfg := cfg;
      fileData := null;
      filename, fields, headers := None, map[], map[];
      headerField, headerValue := [], [];
      partName, partIsFile := None, false;
      partBuffer := new Bytearray([]);
    }

    function View(): Collector
      reads this, partBuffer, if fileData != null then {fileData} else {}
    {
      Collector(if fileData == null then None else Some(fileData.bytes), filename, fields, headers, headerField,
                headerValue, partName, partIsFile, partBuffer.bytes, fileData == partBuffer)
    }

    /** The callback behaves as `On` says; on an error nothing is promised of the state. */
    twostate predicate Did(e: Event, new r: Result<(), Error>)
      reads this, partBuffer, if fileData != null then {fileData} else {}
    {
      var want := On(cfg, old(View()), e);
      if want.Ok? then r.Ok? && View() == want.value else r.Err? && r.error == want.error
    }

    method OnPartBegin() returns (r: Result<(), Error>)
      modifies this
      ensures Did(PartBegin, r) && fileData == old(fileData) && fresh(partBuffer)
    {
      headers := map[];
      partBuffer := new Bytearray([]);
      r := Ok(());
    }

    method OnHeaderField(data: Bytes) returns (r: Result<(), Error>)
      modifies this
      ensures Did(HeaderField(data), r) && fileData == old(fileData) && partBuffer == old(partBuffer)
    {
      headerField := headerField + data;
      r := Ok(());
    }

    method OnHeaderValue(data: Bytes) returns (r: Result<(), Error>)
      modifies this
      ensures Did(HeaderValue(data), r) && fileData == old(fileData) && partBuffer == old(partBuffer)
    {
      headerValue := headerValue + data;
      r := Ok(());
    }

    method OnHeaderEnd() returns (r: Result<(), Error>)
      modifies this
      ensures Did(HeaderEnd, r) && fileData == old(fileData) && partBuffer == old(partBuffer)
    {
      headers := headers[Lower(headerField) := headerValue];
      headerField, headerValue := [], [];
      r := Ok(());
    }

    method OnHeadersFinished() returns (r: Result<(), Error>)
      modifies this
      ensures Did(HeadersFinished, r) && fileData == old(fileData) && partBuffer == old(partBuffer)
    {
      var name := NameIn(cfg, headers);
      if name == Some(cfg.filePart) {
        if fileData != null { return Err(BadRequest); }
        partIsFile, partName := true, name;
        filename := FilenameIn(cfg, headers);
      } else if name.Some? && name.value in cfg.textParts {
        if name.value in fields { return Err(BadRequest); }
        partIsFile, partName := false, name;
      } else {
        partIsFile, partName := false, None;
      }
      r := Ok(());
    }

    method OnPartData(data: Bytes) returns (r: Result<(), Error>)
      modifies partBuffer
      ensures Did(PartData(data), r)
    {
      if partName.None? { return Ok(()); }
      partBuffer.bytes := partBuffer.bytes + data;
      if partIsFile {
        if |partBuffer.bytes| > cfg.maxFile { return Err(TooLarge); }
      } else if |partBuffer.bytes| > MAX_TEXT {
        return Err(BadRequest);
      }
      r := Ok(());
    }

    method OnPartEnd() returns (r: Result<(), Error>)
      modifies this
      ensures Did(PartEnd, r) && partBuffer == old(partBuffer)
      ensures fileData == old(fileData) || fileData == partBuffer
    {
      if partName.None? { return Ok(()); }
      if partIsFile {
        fileData := partBuffer;
      } else {
        var text := cfg.strict(partBuffer.bytes);
        if text.None? { return Err(BadRequest); }
        fields := fields[partName.value := text.value];
      }
      partName, partIsFile := None, false;
      r := Ok(());
    }

    /** The parser calling back. */
    method Dispatch(e: Event) returns (r: Result<(), Error>)
      modifies this, partBuffer
      ensures Did(e, r)
      ensures partBuffer == old(partBuffer) || fresh(partBuffer)
    {
      match e
      case PartBegin => r := OnPartBegin();
      case HeaderField(d) => r := OnHeaderField(d);
      case HeaderValue(d) => r := OnHeaderValue(d);
      case HeaderEnd => r := OnHeaderEnd();
      case HeadersFinished => r := OnHeadersFinished();
      case PartData(d) => r := OnPartData(d);
      case PartEnd => r := OnPartEnd();
      case Malformed => r := Err(ParserError);
    }

    /** The callbacks of one `parser.write`, up to the first that raises. */
    method Write(es: seq<Event>) returns (r: Result<(), Error>)
      modifies this, partBuffer
      ensures
        var want := Feed(cfg, old(View()), es);
        if want.Ok? then r.Ok? && View() == want.value else r.Err? && r.error == want.error
      ensures partBuffer == old(partBuffer) || fresh(partBuffer)
    {
      hide On;
      r := Ok(());
      assert es[0..] == es;
      for i := 0 to |es|
        invariant Feed(cfg, old(View()), es) == Feed(cfg, View(), es[i..])
        invariant partBuffer == old(partBuffer) || fresh(partBuffer)
        invariant r.Ok?
      {
        assert es[i..][0] == es[i] && es[i..][1..] == es[i + 1..];
        r := Dispatch(es[i]);
        if r.Err? { return; }
      }
    }
  }

  // ---------------------------------------------------------------- the chunked read

  /** The push parser: what it emits for a chunk, and the state it is left in. */
  datatype Tokeniser<!S> = Tokeniser(start: S, feed: (S, Bytes) -> (S, seq<Event>))

  /** A chunk boundary may cut callbacks, and does nothing else. */
  ghost predicate ChunkLaw<S(!new)>(t: Tokeniser<S>) {
    forall s, a, b :: a != [] && b != [] ==>
      var (s1, e1) := t.feed(s, a);
      var (s2, e2) := t.feed(s1, b);
      t.feed(s, a + b).0 == s2 && Fused(t.feed(s, a + b).1) == Fused(e1 + e2)
  }

  /** The law can be met: a parser that passes its input on as data does. */
  lemma PassThroughMeetsTheLaw()
    ensures ChunkLaw(Tokeniser(0, (s: int, data: Bytes) => (s, [PartData(data)])))
  {
    forall a: Bytes, b: Bytes ensures Fused([PartData(a + b)]) == Fused([PartData(a), PartData(b)]) {
      assert [PartData(a), PartData(b)][1..] == [PartData(b)];
      assert Fused([PartData(b)]) == [PartData(b)];
      assert Fused([PartData(a + b)]) == [PartData(a + b)];
    }
    forall a: Bytes, b: Bytes ensures [PartData(a)] + [PartData(b)] == [PartData(a), PartData(b)] {
    }
  }

  function Concat(chunks: seq<Bytes>): Bytes {
    if chunks == [] then [] else Concat(chunks[..|chunks| - 1]) + chunks[|chunks| - 1]
  }

  datatype Upload = Upload(file: Bytes, filename: Option<string>, fields: map<string, string>)

  /** The checks after the last chunk. */
  function Finish(cfg: Config, g: Gathered): Result<Upload, Error> {
    if g.file.None? then Err(BadRequest)
    else if exists name :: name in cfg.textParts && (name !in g.fields || Blank(g.fields[name])) then Err(BadRequest)
    else Ok(Upload(g.file.value, g.filename, g.fields))
  }

  /** The whole body in one piece. */
  function ReadWhole<S>(cfg: Config, t: Tokeniser<S>, body: Bytes): Result<Upload, Error> {
    match Feed(cfg, EMPTY, if body == [] then [] else t.feed(t.start, body).1)
    case Err(x) => Err(x)
    case Ok(c) => Finish(cfg, UploadOf(c))
  }

  /** The parser's state and everything it has emitted after the given body. */
  function After<S>(t: Tokeniser<S>, body: Bytes): (S, seq<Event>) {
    if body == [] then (t.start, []) else t.feed(t.start, body)
  }

  /** One more chunk: the collector cannot tell it from one longer chunk. */
  lemma ChunkExtends<S(!new)>(cfg: Config, t: Tokeniser<S>, body: Bytes, chunk: Bytes)
    requires ChunkLaw(t) && chunk != []
    ensures
      var (s1, e1) := After(t, body);
      var (s2, e2) := t.feed(s1, chunk);
      After(t, body + chunk).0 == s2
      && Feed(cfg, EMPTY, After(t, body + chunk).1) == FeedFrom(cfg, Feed(cfg, EMPTY, e1), e2)
  {
    hide Feed, Fused;
    var (s1, e1) := After(t, body);
    var (s2, e2) := t.feed(s1, chunk);
    if body == [] {
      assert body + chunk == chunk;
      FeedNothing(cfg, EMPTY);
    } else {
      assert Fused(t.feed(t.start, body + chunk).1) == Fused(e1 + e2);
      CutsDoNotMatter(cfg, EMPTY, t.feed(t.start, body + chunk).1, e1 + e2);
      FeedConcat(cfg, EMPTY, e1, e2);
    }
  }

  /** The streaming loop as a function of the chunks: what the collector holds, or why it stopped. */
  function Streamed<S>(cfg: Config, t: Tokeniser<S>, ceiling: nat, chunks: seq<Bytes>): Result<(S, Collector), Error> {
    if chunks == [] then Ok((t.start, EMPTY))
    else
      var front, chunk := chunks[..|chunks| - 1], chunks[|chunks| - 1];
      var (s, c) :- Streamed(cfg, t, ceiling, front);
      if chunk == [] then Ok((s, c))
      else if |Concat(chunks)| > ceiling then Err(TooLarge)
      else
        var (s', es) := t.feed(s, chunk);
        match Feed(cfg, c, es)
        case Err(x) => Err(x)
        case Ok(c') => Ok((s', c'))
  }

  /** `read_csv_upload`. The two header checks come first; then each chunk is counted before the
      parser sees it. `fed` is what reached the parser. */
  method ReadCsvUpload<S>(cfg: Config, t: Tokeniser<S>, isMultipart: bool, declared: Option<nat>, ceiling: nat,
                          chunks: seq<Bytes>)
    returns (r: Result<Upload, Error>, ghost fed: Bytes)
    ensures |fed| <= ceiling && fed <= Concat(chunks)
    ensures !isMultipart ==> r == Err(BadRequest)
    ensures isMultipart && declared.Some? && declared.value > ceiling ==> r == Err(TooLarge)
    ensures isMultipart && !(declared.Some? && declared.value > ceiling) ==>
              r == Outcome(cfg, Streamed(cfg, t, ceiling, chunks))
  {
    fed := [];
    if !isMultipart { return Err(BadRequest), []; }
    if declared.Some? && declared.value > ceiling { return Err(TooLarge), []; }
    hide Feed;
    var collector := new MultipartCollector(cfg);
    var s := t.start;
    var total := 0;
    for i := 0 to |chunks|
      invariant fresh(collector) && fresh(collector.partBuffer)
      invariant fed == Concat(chunks[..i]) && total == |fed| <= ceiling
      invariant Streamed(cfg, t, ceiling, chunks[..i]) == Ok((s, collector.View()))
    {
      assert chunks[..i + 1][..i] == chunks[..i];
      if chunks[i] == [] { continue; }
      total := total + |chunks[i]|;
      if total > ceiling {
        StreamedStops(cfg, t, ceiling, chunks, i + 1);
        ConcatPrefix(chunks, i);
        return Err(TooLarge), fed;
      }
      fed := fed + chunks[i];
      var (s', es) := t.feed(s, chunks[i]);
      var written := collector.Write(es);
      if written.Err? {
        StreamedStops(cfg, t, ceiling, chunks, i + 1);
        ConcatPrefix(chunks, i + 1);
        return Err(written.error), fed;
      }
      s := s';
    }
    assert chunks[..|chunks|] == chunks;
    r := FinishRead(cfg, collector.View());
  }

  function Outcome<S>(cfg: Config, r: Result<(S, Collector), Error>): Result<Upload, Error> {
    match r
    case Err(x) => Err(x)
    case Ok((_, c)) => Finish(cfg, UploadOf(c))
  }

  /** The final checks as a scan of the required parts. */
  method FinishRead(cfg: Config, c: Collector) returns (r: Result<Upload, Error>)
    ensures r == Finish(cfg, UploadOf(c))
  {
    if c.fileData.None? { return Err(BadRequest); }
    var left := cfg.textParts;
    while left != {}
      invariant left <= cfg.textParts
      invariant forall name :: name in cfg.textParts - left ==> name in c.fields && !Blank(c.fields[name])
      decreases left
    {
      var name :| name in left;
      if name !in c.fields || Blank(c.fields[name]) { return Err(BadRequest); }
      left := left - {name};
    }
    r := Ok(Upload(c.fileData.value, c.filename, c.fields));
  }

  /** An error after some chunks is the error after all of them. */
  lemma {:induction false} StreamedStops<S>(cfg: Config, t: Tokeniser<S>, ceiling: nat, chunks: seq<Bytes>, n: nat)
    requires n <= |chunks| && Streamed(cfg, t, ceiling, chunks[..n]).Err?
    ensures Streamed(cfg, t, ceiling, chunks) == Streamed(cfg, t, ceiling, chunks[..n])
    decreases |chunks|
  {
    if n == |chunks| {
      assert chunks[..n] == chunks;
    } else {
      assert chunks[..|chunks| - 1][..n] == chunks[..n];
      StreamedStops(cfg, t, ceiling, chunks[..|chunks| - 1], n);
    }
  }

  lemma {:induction false} ConcatPrefix(chunks: seq<Bytes>, n: nat)
    requires n <= |chunks|
    ensures Concat(chunks[..n]) <= Concat(chunks)
    decreases |chunks|
  {
    if n == |chunks| {
      assert chunks[..n] == chunks;
    } else {
      assert chunks[..|chunks| - 1][..n] == chunks[..n];
      ConcatPrefix(chunks[..|chunks| - 1], n);
    }
  }

  /** Within the ceiling, the loop's outcome is that of the concatenated body. */
  lemma {:induction false} StreamedIsWhole<S(!new)>(cfg: Config, t: Tokeniser<S>, ceiling: nat, chunks: seq<Bytes>)
    requires ChunkLaw(t) && |Concat(chunks)| <= ceiling
    ensures
      var body := Concat(chunks);
      match Streamed(cfg, t, ceiling, chunks) {
        case Err(x) => Feed(cfg, EMPTY, After(t, body).1) == Err(x)
        case Ok((s, c)) => s == After(t, body).0 && Feed(cfg, EMPTY, After(t, body).1) == Ok(c)
      }
    decreases |chunks|
  {
    hide Feed, ChunkLaw;
    if chunks == [] {
      FeedNothing(cfg, EMPTY);
    } else {
      var front, chunk := chunks[..|chunks| - 1], chunks[|chunks| - 1];
      StreamedIsWhole(cfg, t, ceiling, front);
      if chunk == [] {
        assert Concat(front) + chunk == Concat(front);
      } else {
        ChunkExtends(cfg, t, Concat(front), chunk);
      }
    }
  }

  /** For a body within the raw ceiling the outcome depends only on the concatenated stream. */
  lemma ChunkingDoesNotMatter<S(!new)>(cfg: Config, t: Tokeniser<S>, ceiling: nat, a: seq<Bytes>, b: seq<Bytes>)
    requires ChunkLaw(t) && Concat(a) == Concat(b) && |Concat(a)| <= ceiling
    ensures Outcome(cfg, Streamed(cfg, t, ceiling, a)) == Outcome(cfg, Streamed(cfg, t, ceiling, b))
    ensures Outcome(cfg, Streamed(cfg, t, ceiling, a)) == ReadWhole(cfg, t, Concat(a))
  {
    hide Feed, ChunkLaw, Streamed;
    StreamedIsWhole(cfg, t, ceiling, a);
    StreamedIsWhole(cfg, t, ceiling, b);
  }

  /** End to end: when the body is, up to the cutting of callbacks, a sequence of whole parts and perhaps an
      unfinished one, any chunking of it within the ceiling gives what reading the whole parts one by one
      gives, unless the unfinished part repeats one or is too large; and an accepted file is within its limit. */
  lemma UploadIsItsParts<S(!new)>(cfg: Config, t: Tokeniser<S>, ceiling: nat, chunks: seq<Bytes>, ps: seq<Part>, tail: Tail)
    requires ChunkLaw(t) && |Concat(chunks)| <= ceiling
    requires Fused(After(t, Concat(chunks)).1) == Fused(Stream(ps) + TailEvents(tail))
    ensures
      var read := Outcome(cfg, Streamed(cfg, t, ceiling, chunks));
      var parts := GatherCut(cfg, Gathered(None, None, map[]), ps, tail);
      && read == (if parts.Err? then Err(parts.error) else Finish(cfg, parts.value))
      && (read.Ok? ==> |read.value.file| <= cfg.maxFile)
  {
    hide Feed, ChunkLaw, Streamed, Fused, Stream, Gather, TailEvents, TailCheck;
    StreamedIsWhole(cfg, t, ceiling, chunks);
    CutsDoNotMatter(cfg, EMPTY, After(t, Concat(chunks)).1, Stream(ps) + TailEvents(tail));
    CutStreamOutcome(cfg, EMPTY, ps, tail);
    if Gather(cfg, UploadOf(EMPTY), ps).Ok? { GatherKeepsFile(cfg, UploadOf(EMPTY), ps); }
  }

  /** A body over the ceiling is never accepted, however it is cut. */
  lemma {:induction false} OverCeilingIsRefused<S>(cfg: Config, t: Tokeniser<S>, ceiling: nat, chunks: seq<Bytes>)
    requires |Concat(chunks)| > ceiling
    ensures Outcome(cfg, Streamed(cfg, t, ceiling, chunks)).Err?
    decreases |chunks|
  {
    var front, chunk := chunks[..|chunks| - 1], chunks[|chunks| - 1];
    if chunk == [] {
      assert Concat(chunks) == Concat(front);
      OverCeilingIsRefused(cfg, t, ceiling, front);
    }
  }
}
