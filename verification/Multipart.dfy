/** The streaming multipart collector (services/dis-ui-server): callbacks of a push parser gather one
    file part and the named text parts. Part names follow section 4.2 of RFC 7578. */
module Multipart {
  import opened Wrappers
  import opened Text

  /** The parser's callbacks; `Malformed` is the parser raising. */
  datatype Event =
    | PartBegin
    | HeaderField(data: Bytes)
    | HeaderValue(data: Bytes)
    | HeaderEnd
    | HeadersFinished
    | PartData(data: Bytes)
    | PartEnd
    | Malformed

  datatype Error = TooLarge | BadRequest | ParserError

  /** The reader's settings, with the option-header parser and the two UTF-8 decoders it calls. */
  datatype Config = Config(
    filePart: string, textParts: set<string>, maxFile: nat,
    options: Option<Bytes> -> map<Bytes, Bytes>, lenient: Bytes -> string, strict: Bytes -> Option<string>)

  const MAX_TEXT: nat := 1024

  /** `content-disposition`, `name` and `filename`. */
  const DISPOSITION: Bytes :=
    [99, 111, 110, 116, 101, 110, 116, 45, 100, 105, 115, 112, 111, 115, 105, 116, 105, 111, 110]
  const NAME: Bytes := [110, 97, 109, 101]
  const FILENAME: Bytes := [102, 105, 108, 101, 110, 97, 109, 101]

  function LowerByte(b: Byte): Byte {
    if 65 <= b <= 90 then b + 32 else b
  }

  function Lower(s: Bytes): (r: Bytes)
    ensures |r| == |s| && forall i :: 0 <= i < |s| ==> r[i] == LowerByte(s[i])
  {
    seq(|s|, i requires 0 <= i < |s| => LowerByte(s[i]))
  }

  /** The collector's fields. `shared` says that the completed file data is the very buffer object the
      current part appends to. */
  datatype Collector = Collector(
    fileData: Option<Bytes>, filename: Option<string>, fields: map<string, string>,
    headers: map<Bytes, Bytes>, headerField: Bytes, headerValue: Bytes,
    partName: Option<string>, partIsFile: bool, buffer: Bytes, shared: bool)

  const EMPTY := Collector(None, None, map[], map[], [], [], None, false, [], false)

  function Lookup<V>(m: map<Bytes, V>, k: Bytes): Option<V> {
    if k in m then Some(m[k]) else None
  }

  /** The part name the headers declare. */
  function NameIn(cfg: Config, headers: map<Bytes, Bytes>): Option<string> {
    match Lookup(cfg.options(Lookup(headers, DISPOSITION)), NAME)
    case Some(raw) => Some(cfg.lenient(raw))
    case None => None
  }

  function FilenameIn(cfg: Config, headers: map<Bytes, Bytes>): Option<string> {
    match Lookup(cfg.options(Lookup(headers, DISPOSITION)), FILENAME)
    case Some(raw) => Some(cfg.lenient(raw))
    case None => None
  }

  predicate IsText(cfg: Config, name: Option<string>) {
    name.Some? && name.value != cfg.filePart && name.value in cfg.textParts
  }

  function FinishHeaders(cfg: Config, c: Collector): Result<Collector, Error> {
    var name := NameIn(cfg, c.headers);
    if name == Some(cfg.filePart) then
      if c.fileData.Some? then Err(BadRequest)
      else Ok(c.(partIsFile := true, partName := name, filename := FilenameIn(cfg, c.headers)))
    else if IsText(cfg, name) then
      if name.value in c.fields then Err(BadRequest)
      else Ok(c.(partIsFile := false, partName := name))
    else Ok(c.(partIsFile := false, partName := None))
  }

  function Append(cfg: Config, c: Collector, data: Bytes): Result<Collector, Error> {
    if c.partName.None? then Ok(c)
    else
      var buffer := c.buffer + data;
      if c.partIsFile && |buffer| > cfg.maxFile then Err(TooLarge)
      else if !c.partIsFile && |buffer| > MAX_TEXT then Err(BadRequest)
      else Ok(c.(buffer := buffer, fileData := if c.shared then Some(buffer) else c.fileData))
  }

  function FinishPart(cfg: Config, c: Collector): Result<Collector, Error> {
    if c.partName.None? then Ok(c)
    else if c.partIsFile then
      Ok(c.(fileData := Some(c.buffer), shared := true, partName := None, partIsFile := false))
    else
      match cfg.strict(c.buffer)
      case None => Err(BadRequest)
      case Some(text) =>
        Ok(c.(fields := c.fields[c.partName.value := text], partName := None, partIsFile := false))
  }

  /** One callback. */
  function On(cfg: Config, c: Collector, e: Event): Result<Collector, Error> {
    match e
    case PartBegin => Ok(c.(headers := map[], buffer := [], shared := false))
    case HeaderField(d) => Ok(c.(headerField := c.headerField + d))
    case HeaderValue(d) => Ok(c.(headerValue := c.headerValue + d))
    case HeaderEnd =>
      Ok(c.(headers := c.headers[Lower(c.headerField) := c.headerValue], headerField := [], headerValue := []))
    case HeadersFinished => FinishHeaders(cfg, c)
    case PartData(d) => Append(cfg, c, d)
    case PartEnd => FinishPart(cfg, c)
    case Malformed => Err(ParserError)
  }

  function Feed(cfg: Config, c: Collector, es: seq<Event>): Result<Collector, Error>
    decreases |es|
  {
    if es == [] then Ok(c)
    else
      match On(cfg, c, es[0])
      case Err(x) => Err(x)
      case Ok(c') => Feed(cfg, c', es[1..])
  }

  /** Going on from an earlier result; an error stays. */
  function FeedFrom(cfg: Config, r: Result<Collector, Error>, es: seq<Event>): Result<Collector, Error> {
    if r.Err? then r else Feed(cfg, r.value, es)
  }

  function OnFrom(cfg: Config, r: Result<Collector, Error>, e: Event): Result<Collector, Error> {
    if r.Err? then r else On(cfg, r.value, e)
  }

  lemma {:induction false} FeedConcat(cfg: Config, c: Collector, a: seq<Event>, b: seq<Event>)
    ensures Feed(cfg, c, a + b) == FeedFrom(cfg, Feed(cfg, c, a), b)
    decreases |a|
  {
    hide On;
    if a == [] {
      assert a + b == b;
    } else {
      assert (a + b)[0] == a[0] && (a + b)[1..] == a[1..] + b;
      var r := On(cfg, c, a[0]);
      if r.Ok? { FeedConcat(cfg, r.value, a[1..], b); }
    }
  }

  // ---------------------------------------------------------------- fragmentation

  predicate SameKind(e: Event, f: Event) {
    (e.HeaderField? && f.HeaderField?) || (e.HeaderValue? && f.HeaderValue?) || (e.PartData? && f.PartData?)
  }

  function Join(e: Event, f: Event): Event
    requires SameKind(e, f)
  {
    e.(data := e.data + f.data)
  }

  /** Puts `e` in front, joining it to an adjacent fragment of its kind. */
  function Glue(e: Event, rest: seq<Event>): seq<Event> {
    if rest != [] && SameKind(e, rest[0]) then [Join(e, rest[0])] + rest[1..] else [e] + rest
  }

  /** The stream with every run of adjacent fragments joined into one. */
  function Fused(es: seq<Event>): seq<Event> {
    if es == [] then [] else Glue(es[0], Fused(es[1..]))
  }

  /** Two adjacent fragments do what their join does, error class included. */
  lemma JoinDoesTheSame(cfg: Config, c: Collector, e: Event, f: Event)
    requires SameKind(e, f)
    ensures On(cfg, c, Join(e, f)) == OnFrom(cfg, On(cfg, c, e), f)
  {
    match e
    case HeaderField(d) => assert (c.headerField + d) + f.data == c.headerField + (d + f.data);
    case HeaderValue(d) => assert (c.headerValue + d) + f.data == c.headerValue + (d + f.data);
    case PartData(d) => assert (c.buffer + d) + f.data == c.buffer + (d + f.data);
  }

  lemma FeedTwo(cfg: Config, c: Collector, e: Event, rest: seq<Event>)
    ensures Feed(cfg, c, [e] + rest) == FeedFrom(cfg, On(cfg, c, e), rest)
  {
    assert ([e] + rest)[1..] == rest;
  }

  lemma GlueDoesTheSame(cfg: Config, c: Collector, e: Event, rest: seq<Event>)
    ensures Feed(cfg, c, Glue(e, rest)) == Feed(cfg, c, [e] + rest)
  {
    hide On, Feed;
    FeedTwo(cfg, c, e, rest);
    if rest != [] && SameKind(e, rest[0]) {
      FeedTwo(cfg, c, Join(e, rest[0]), rest[1..]);
      JoinDoesTheSame(cfg, c, e, rest[0]);
      assert rest == [rest[0]] + rest[1..];
      var r := On(cfg, c, e);
      if r.Ok? { FeedTwo(cfg, r.value, rest[0], rest[1..]); }
    }
  }

  lemma {:induction false} FusedDoesTheSame(cfg: Config, c: Collector, es: seq<Event>)
    ensures Feed(cfg, c, Fused(es)) == Feed(cfg, c, es)
    decreases |es|
  {
    hide On;
    if es != [] {
      GlueDoesTheSame(cfg, c, es[0], Fused(es[1..]));
      FeedTwo(cfg, c, es[0], Fused(es[1..]));
      var r := On(cfg, c, es[0]);
      if r.Ok? { FusedDoesTheSame(cfg, r.value, es[1..]); }
    }
  }

  /** Fragmentation independence: from any collector state, two callback streams that differ only in
      how adjacent header or data callbacks are cut end in the same state or the same error class. */
  lemma CutsDoNotMatter(cfg: Config, c: Collector, a: seq<Event>, b: seq<Event>)
    requires Fused(a) == Fused(b)
    ensures Feed(cfg, c, a) == Feed(cfg, c, b)
  {
    FusedDoesTheSame(cfg, c, a);
    FusedDoesTheSame(cfg, c, b);
  }

  // ---------------------------------------------------------------- whole parts

  /** One header, as the fragments of its field and of its value. */
  datatype Header = Header(field: seq<Bytes>, value: seq<Bytes>)

  datatype Part = Part(headers: seq<Header>, data: seq<Bytes>)

  function Flat(bs: seq<Bytes>): Bytes {
    if bs == [] then [] else bs[0] + Flat(bs[1..])
  }

  function FieldEvents(bs: seq<Bytes>): seq<Event> {
    if bs == [] then [] else [HeaderField(bs[0])] + FieldEvents(bs[1..])
  }

  function ValueEvents(bs: seq<Bytes>): seq<Event> {
    if bs == [] then [] else [HeaderValue(bs[0])] + ValueEvents(bs[1..])
  }

  function DataEvents(bs: seq<Bytes>): seq<Event> {
    if bs == [] then [] else [PartData(bs[0])] + DataEvents(bs[1..])
  }

  function HeaderEvents(hs: seq<Header>): seq<Event> {
    if hs == [] then []
    else (FieldEvents(hs[0].field) + (ValueEvents(hs[0].value) + [HeaderEnd])) + HeaderEvents(hs[1..])
  }

  /** A part without its end. */
  function OpenEvents(p: Part): seq<Event> {
    [PartBegin] + (HeaderEvents(p.headers) + ([HeadersFinished] + DataEvents(p.data)))
  }

  function PartEvents(p: Part): seq<Event> {
    OpenEvents(p) + [PartEnd]
  }

  function Stream(ps: seq<Part>): seq<Event> {
    if ps == [] then [] else PartEvents(ps[0]) + Stream(ps[1..])
  }

  /** The header table after a part's headers (a repeated field keeps the last value). */
  function HeaderMap(hs: seq<Header>, acc: map<Bytes, Bytes>): map<Bytes, Bytes> {
    if hs == [] then acc else HeaderMap(hs[1..], acc[Lower(Flat(hs[0].field)) := Flat(hs[0].value)])
  }

  function PartNameOf(cfg: Config, p: Part): Option<string> {
    NameIn(cfg, HeaderMap(p.headers, map[]))
  }

  /** Neither the file part nor one of the text parts. */
  predicate Unknown(cfg: Config, p: Part) {
    PartNameOf(cfg, p) != Some(cfg.filePart) && !IsText(cfg, PartNameOf(cfg, p))
  }

  /** Between two parts: no header or part is in flight. */
  predicate Between(c: Collector) {
    c.headerField == [] && c.headerValue == [] && c.partName == None && !c.partIsFile
  }

  lemma {:induction false} FieldsAccumulate(cfg: Config, c: Collector, bs: seq<Bytes>)
    ensures Feed(cfg, c, FieldEvents(bs)) == Ok(c.(headerField := c.headerField + Flat(bs)))
    decreases |bs|
  {
    if bs == [] {
      assert c.headerField + [] == c.headerField;
    } else {
      FeedTwo(cfg, c, HeaderField(bs[0]), FieldEvents(bs[1..]));
      FieldsAccumulate(cfg, c.(headerField := c.headerField + bs[0]), bs[1..]);
      assert c.headerField + Flat(bs) == (c.headerField + bs[0]) + Flat(bs[1..]);
    }
  }

  lemma {:induction false} ValuesAccumulate(cfg: Config, c: Collector, bs: seq<Bytes>)
    ensures Feed(cfg, c, ValueEvents(bs)) == Ok(c.(headerValue := c.headerValue + Flat(bs)))
    decreases |bs|
  {
    if bs == [] {
      assert c.headerValue + [] == c.headerValue;
    } else {
      FeedTwo(cfg, c, HeaderValue(bs[0]), ValueEvents(bs[1..]));
      ValuesAccumulate(cfg, c.(headerValue := c.headerValue + bs[0]), bs[1..]);
      assert c.headerValue + Flat(bs) == (c.headerValue + bs[0]) + Flat(bs[1..]);
    }
  }

  lemma {:induction false} HeadersAccumulate(cfg: Config, c: Collector, hs: seq<Header>)
    requires c.headerField == [] && c.headerValue == []
    ensures Feed(cfg, c, HeaderEvents(hs)) == Ok(c.(headers := HeaderMap(hs, c.headers)))
    decreases |hs|
  {
    if hs != [] {
      var h := hs[0];
      var fields, values := FieldEvents(h.field), ValueEvents(h.value);
      OneHeader(cfg, c, h);
      var c' := c.(headers := c.headers[Lower(Flat(h.field)) := Flat(h.value)]);
      FeedConcat(cfg, c, fields + (values + [HeaderEnd]), HeaderEvents(hs[1..]));
      HeadersAccumulate(cfg, c', hs[1..]);
    }
  }

  lemma OneHeader(cfg: Config, c: Collector, h: Header)
    requires c.headerField == [] && c.headerValue == []
    ensures Feed(cfg, c, FieldEvents(h.field) + (ValueEvents(h.value) + [HeaderEnd]))
            == Ok(c.(headers := c.headers[Lower(Flat(h.field)) := Flat(h.value)]))
  {
    var fields, values := FieldEvents(h.field), ValueEvents(h.value);
    var c1 := c.(headerField := c.headerField + Flat(h.field));
    var c2 := c1.(headerValue := c1.headerValue + Flat(h.value));
    FeedConcat(cfg, c, fields, values + [HeaderEnd]);
    FieldsAccumulate(cfg, c, h.field);
    FeedConcat(cfg, c1, values, [HeaderEnd]);
    ValuesAccumulate(cfg, c1, h.value);
    assert c2.headerField == Flat(h.field) && c2.headerValue == Flat(h.value);
    var c3 := c.(headers := c.headers[Lower(Flat(h.field)) := Flat(h.value)]);
    assert On(cfg, c2, HeaderEnd) == Ok(c3);
    FeedTwo(cfg, c2, HeaderEnd, []);
    assert [HeaderEnd] + [] == [HeaderEnd];
  }

  /** The collector once a part's headers are complete. */
  function Opened(cfg: Config, c: Collector, p: Part): Result<Collector, Error> {
    FinishHeaders(cfg, c.(headers := HeaderMap(p.headers, map[]), buffer := [], shared := false))
  }

  /** A part up to some of its data: headers, then that data. */
  lemma OpenInSteps(cfg: Config, c: Collector, p: Part)
    requires Between(c)
    ensures Feed(cfg, c, OpenEvents(p)) == FeedFrom(cfg, Opened(cfg, c, p), DataEvents(p.data))
  {
    hide Feed, FinishHeaders, HeaderMap;
    var tail := DataEvents(p.data);
    var mid := [HeadersFinished] + tail;
    var c0 := c.(headers := map[], buffer := [], shared := false);
    FeedTwo(cfg, c, PartBegin, HeaderEvents(p.headers) + mid);
    FeedConcat(cfg, c0, HeaderEvents(p.headers), mid);
    HeadersAccumulate(cfg, c0, p.headers);
    var c1 := c0.(headers := HeaderMap(p.headers, map[]));
    FeedTwo(cfg, c1, HeadersFinished, tail);
  }

  /** A whole part: headers, then data, then the end. */
  lemma PartInSteps(cfg: Config, c: Collector, p: Part)
    requires Between(c)
    ensures Feed(cfg, c, PartEvents(p)) ==
            OnFrom(cfg, FeedFrom(cfg, Opened(cfg, c, p), DataEvents(p.data)), PartEnd)
  {
    hide Feed, Opened, FinishPart, OpenEvents;
    OpenInSteps(cfg, c, p);
    FeedConcat(cfg, c, OpenEvents(p), [PartEnd]);
    var r := Feed(cfg, c, OpenEvents(p));
    if r.Ok? { FeedOne(cfg, r.value, PartEnd); }
  }

  lemma FeedOne(cfg: Config, c: Collector, e: Event)
    ensures Feed(cfg, c, [e]) == On(cfg, c, e)
  {
    FeedTwo(cfg, c, e, []);
    assert [e] + [] == [e];
  }

  lemma {:induction false} DataDrained(cfg: Config, c: Collector, bs: seq<Bytes>)
    requires c.partName == None
    ensures Feed(cfg, c, DataEvents(bs)) == Ok(c)
    decreases |bs|
  {
    if bs != [] {
      FeedTwo(cfg, c, PartData(bs[0]), DataEvents(bs[1..]));
      DataDrained(cfg, c, bs[1..]);
    }
  }

  // ---------------------------------------------------------------- what whole parts amount to

  /** What a caller gets out of the collector. */
  datatype Gathered = Gathered(file: Option<Bytes>, filename: Option<string>, fields: map<string, string>)

  function UploadOf(c: Collector): Gathered {
    Gathered(c.fileData, c.filename, c.fields)
  }

  /** One whole part, read at once: no buffer, no fragments, no callbacks. */
  function GatherPart(cfg: Config, g: Gathered, p: Part): Result<Gathered, Error> {
    var name, data := PartNameOf(cfg, p), Flat(p.data);
    if name == Some(cfg.filePart) then
      if g.file.Some? then Err(BadRequest)
      else if |data| > cfg.maxFile then Err(TooLarge)
      else Ok(Gathered(Some(data), FilenameIn(cfg, HeaderMap(p.headers, map[])), g.fields))
    else if IsText(cfg, name) then
      if name.value in g.fields || |data| > MAX_TEXT || cfg.strict(data).None? then Err(BadRequest)
      else Ok(g.(fields := g.fields[name.value := cfg.strict(data).value]))
    else Ok(g)
  }

  function Gather(cfg: Config, g: Gathered, ps: seq<Part>): Result<Gathered, Error>
    decreases |ps|
  {
    if ps == [] then Ok(g)
    else
      var g' :- GatherPart(cfg, g, ps[0]);
      Gather(cfg, g', ps[1..])
  }

  function Limit(cfg: Config, c: Collector): nat {
    if c.partIsFile then cfg.maxFile else MAX_TEXT
  }

  /** Fragments of an open part fill its buffer, or are refused exactly when together they exceed the limit. */
  lemma {:induction false} DataOutcome(cfg: Config, c: Collector, bs: seq<Bytes>)
    requires !c.shared && c.partName.Some? && |c.buffer| <= Limit(cfg, c)
    ensures Feed(cfg, c, DataEvents(bs)) ==
            if |c.buffer + Flat(bs)| > Limit(cfg, c) then Err(if c.partIsFile then TooLarge else BadRequest)
            else Ok(c.(buffer := c.buffer + Flat(bs)))
    decreases |bs|
  {
    if bs == [] {
      assert c.buffer + [] == c.buffer;
    } else {
      FeedTwo(cfg, c, PartData(bs[0]), DataEvents(bs[1..]));
      assert (c.buffer + bs[0]) + Flat(bs[1..]) == c.buffer + Flat(bs);
      if |c.buffer + bs[0]| <= Limit(cfg, c) {
        DataOutcome(cfg, c.(buffer := c.buffer + bs[0]), bs[1..]);
      }
    }
  }

  /** The collector stands between two parts with upload `g`, or both failed alike. */
  predicate Agrees(r: Result<Collector, Error>, g: Result<Gathered, Error>) {
    if r.Ok? then g == Ok(UploadOf(r.value)) && Between(r.value) else g == Err(r.error)
  }

  /** The callbacks of one whole part do what reading the part at once does. */
  lemma PartOutcome(cfg: Config, c: Collector, p: Part)
    requires Between(c)
    ensures Agrees(Feed(cfg, c, PartEvents(p)), GatherPart(cfg, UploadOf(c), p))
  {
    hide Feed, HeaderMap, Flat, NameIn, FilenameIn, DataEvents, PartEvents;
    PartInSteps(cfg, c, p);
    var ready := Opened(cfg, c, p);
    if ready.Ok? {
      if ready.value.partName.None? {
        DataDrained(cfg, ready.value, p.data);
      } else {
        assert ready.value.buffer + Flat(p.data) == Flat(p.data);
        DataOutcome(cfg, ready.value, p.data);
      }
    }
  }

  /** The collector, driven by the callbacks of any well-formed stream however cut, is the part-by-part
      reading of it: same file bytes, filename and fields, or the same error class. */
  lemma {:induction false} StreamOutcome(cfg: Config, c: Collector, ps: seq<Part>)
    requires Between(c)
    ensures Agrees(Feed(cfg, c, Stream(ps)), Gather(cfg, UploadOf(c), ps))
    decreases |ps|
  {
    hide On, PartEvents, GatherPart;
    if ps != [] {
      FeedConcat(cfg, c, PartEvents(ps[0]), Stream(ps[1..]));
      PartOutcome(cfg, c, ps[0]);
      var r := Feed(cfg, c, PartEvents(ps[0]));
      if r.Ok? { StreamOutcome(cfg, r.value, ps[1..]); }
    }
  }

  // ---------------------------------------------------------------- streams cut short

  /** Where a stream of parts may break off: between parts, `n` callbacks into a part's headers, or after
      some of a part's data. */
  datatype Tail = NoTail | InHeaders(headers: seq<Header>, n: nat) | Open(part: Part)

  function TailEvents(t: Tail): seq<Event> {
    match t
    case NoTail => []
    case InHeaders(hs, n) =>
      var es := [PartBegin] + HeaderEvents(hs);
      if n <= |es| then es[..n] else es
    case Open(p) => OpenEvents(p)
  }

  /** What an unfinished part can do: nothing, or fail for a repeat or for its size. */
  function TailCheck(cfg: Config, g: Gathered, t: Tail): Result<(), Error> {
    if !t.Open? then Ok(())
    else
      var name, data := PartNameOf(cfg, t.part), Flat(t.part.data);
      if name == Some(cfg.filePart) then
        if g.file.Some? then Err(BadRequest) else if |data| > cfg.maxFile then Err(TooLarge) else Ok(())
      else if IsText(cfg, name) && (name.value in g.fields || |data| > MAX_TEXT) then Err(BadRequest)
      else Ok(())
  }

  /** The same file and fields, and the same filename if there is a file to go with it. */
  predicate SameUpload(a: Gathered, b: Gathered) {
    a.file == b.file && a.fields == b.fields && (a.file.Some? ==> a.filename == b.filename)
  }

  /** Failed as `check` says, or holds upload `g`. */
  predicate Leaves(r: Result<Collector, Error>, check: Result<(), Error>, g: Gathered) {
    if r.Ok? then check.Ok? && SameUpload(UploadOf(r.value), g) else check == Err(r.error)
  }

  predicate InHeader(e: Event) {
    e.PartBegin? || e.HeaderField? || e.HeaderValue? || e.HeaderEnd?
  }

  predicate AllInHeader(es: seq<Event>) {
    forall i :: 0 <= i < |es| ==> InHeader(es[i])
  }

  lemma {:induction false} HeaderEventsOnly(hs: seq<Header>)
    ensures AllInHeader(HeaderEvents(hs))
  {
    if hs != [] {
      FieldEventsOnly(hs[0].field);
      ValueEventsOnly(hs[0].value);
      HeaderEventsOnly(hs[1..]);
    }
  }

  lemma {:induction false} FieldEventsOnly(bs: seq<Bytes>)
    ensures AllInHeader(FieldEvents(bs))
  {
    if bs != [] { FieldEventsOnly(bs[1..]); }
  }

  lemma {:induction false} ValueEventsOnly(bs: seq<Bytes>)
    ensures AllInHeader(ValueEvents(bs))
  {
    if bs != [] { ValueEventsOnly(bs[1..]); }
  }

  lemma {:induction false} HeadersKeepUpload(cfg: Config, c: Collector, es: seq<Event>)
    requires AllInHeader(es)
    ensures Feed(cfg, c, es).Ok? && UploadOf(Feed(cfg, c, es).value) == UploadOf(c)
    decreases |es|
  {
    if es != [] {
      assert InHeader(es[0]);
      HeadersKeepUpload(cfg, On(cfg, c, es[0]).value, es[1..]);
    }
  }

  /** An unfinished part contributes nothing. */
  lemma TailOutcome(cfg: Config, c: Collector, t: Tail)
    requires Between(c)
    ensures Leaves(Feed(cfg, c, TailEvents(t)), TailCheck(cfg, UploadOf(c), t), UploadOf(c))
  {
    match t
    case NoTail =>
    case InHeaders(hs, n) =>
      hide Feed;
      HeaderEventsOnly(hs);
      HeadersKeepUpload(cfg, c, TailEvents(t));
    case Open(p) => OpenOutcome(cfg, c, p);
  }

  lemma OpenOutcome(cfg: Config, c: Collector, p: Part)
    requires Between(c)
    ensures Leaves(Feed(cfg, c, OpenEvents(p)), TailCheck(cfg, UploadOf(c), Open(p)), UploadOf(c))
  {
    hide Feed, HeaderMap, Flat, NameIn, FilenameIn, DataEvents, OpenEvents;
    OpenInSteps(cfg, c, p);
    var ready := Opened(cfg, c, p);
    if ready.Ok? {
      if ready.value.partName.None? {
        DataDrained(cfg, ready.value, p.data);
      } else {
        assert ready.value.buffer + Flat(p.data) == Flat(p.data);
        DataOutcome(cfg, ready.value, p.data);
      }
    }
  }

  /** What a stream of whole parts and an unfinished one comes to. */
  function GatherCut(cfg: Config, g: Gathered, ps: seq<Part>, t: Tail): Result<Gathered, Error> {
    var parts :- Gather(cfg, g, ps);
    var _ :- TailCheck(cfg, parts, t);
    Ok(parts)
  }

  /** The collector on a stream that breaks off anywhere is the reading of its whole parts. */
  lemma CutStreamOutcome(cfg: Config, c: Collector, ps: seq<Part>, t: Tail)
    requires Between(c)
    ensures
      var r := Feed(cfg, c, Stream(ps) + TailEvents(t));
      var g := GatherCut(cfg, UploadOf(c), ps, t);
      if r.Ok? then g.Ok? && SameUpload(UploadOf(r.value), g.value) else g == Err(r.error)
  {
    hide Feed, Gather, Stream, TailEvents, TailCheck;
    FeedConcat(cfg, c, Stream(ps), TailEvents(t));
    StreamOutcome(cfg, c, ps);
    var r := Feed(cfg, c, Stream(ps));
    if r.Ok? { TailOutcome(cfg, r.value, t); }
  }

  lemma {:induction false} DataPrefix(bs: seq<Bytes>, m: nat)
    requires m <= |bs|
    ensures |DataEvents(bs)| == |bs| && DataEvents(bs[..m]) == DataEvents(bs)[..m]
    decreases |bs|
  {
    if bs != [] {
      if m > 0 {
        assert bs[..m][1..] == bs[1..][..m - 1];
        DataPrefix(bs[1..], m - 1);
      } else {
        DataPrefix(bs[1..], 0);
      }
    }
  }

  /** A part that breaks off breaks off in one of those ways. */
  lemma PartPrefixIsTail(p: Part, es: seq<Event>) returns (t: Tail)
    requires es <= PartEvents(p) && es != PartEvents(p)
    ensures es == TailEvents(t)
  {
    hide HeaderEvents, DataEvents;
    var hs := [PartBegin] + HeaderEvents(p.headers);
    if |es| <= |hs| {
      t := InHeaders(p.headers, |es|);
      assert PartEvents(p)[..|es|] == hs[..|es|];
    } else {
      var m := |es| - |hs| - 1;
      DataPrefix(p.data, |p.data|);
      DataPrefix(p.data, m);
      t := Open(Part(p.headers, p.data[..m]));
      assert PartEvents(p) == hs + ([HeadersFinished] + (DataEvents(p.data) + [PartEnd]));
      assert OpenEvents(Part(p.headers, p.data[..m])) == hs + ([HeadersFinished] + DataEvents(p.data)[..m]);
    }
  }

  lemma NoTailIsEmpty()
    ensures TailEvents(NoTail) == []
  {
  }

  /** Every prefix of a stream of whole parts is some of the parts and a tail. */
  lemma {:induction false} PrefixIsPartsAndTail(ps: seq<Part>, es: seq<Event>) returns (k: nat, t: Tail)
    requires es <= Stream(ps)
    ensures k <= |ps| && es == Stream(ps[..k]) + TailEvents(t)
    decreases |ps|
  {
    hide PartEvents, TailEvents;
    if ps == [] {
      k, t := 0, NoTail;
      NoTailIsEmpty();
    } else {
      var first := PartEvents(ps[0]);
      if |es| < |first| {
        k := 0;
        assert es == first[..|es|];
        t := PartPrefixIsTail(ps[0], es);
        assert Stream(ps[..0]) == [];
      } else {
        var rest := es[|first|..];
        assert es == first + rest && Stream(ps)[|first|..] == Stream(ps[1..]);
        k, t := PrefixIsPartsAndTail(ps[1..], rest);
        assert ps[..k + 1][1..] == ps[1..][..k];
        k := k + 1;
      }
    }
  }

  // ---------------------------------------------------------------- completed data, unknown parts

  /** Within the size ceiling, and between parts again. */
  predicate Sound(cfg: Config, c: Collector) {
    Between(c) && (c.fileData.Some? ==> |c.fileData.value| <= cfg.maxFile)
  }

  lemma PartKeeps(cfg: Config, c: Collector, p: Part)
    requires Sound(cfg, c) && Feed(cfg, c, PartEvents(p)).Ok?
    ensures
      var c' := Feed(cfg, c, PartEvents(p)).value;
      Sound(cfg, c') && (c.fileData.Some? ==> c'.fileData == c.fileData && c'.filename == c.filename)
  {
    hide Feed, PartEvents, PartNameOf, HeaderMap;
    PartOutcome(cfg, c, p);
  }

  /** A prefix that ends inside its first part holds the upload it started from. */
  lemma CutPartKeeps(cfg: Config, c: Collector, p: Part, es: seq<Event>)
    requires Between(c) && es <= PartEvents(p) && es != PartEvents(p) && Feed(cfg, c, es).Ok?
    ensures SameUpload(UploadOf(Feed(cfg, c, es).value), UploadOf(c))
  {
    hide Feed, TailEvents, PartEvents;
    var t := PartPrefixIsTail(p, es);
    TailOutcome(cfg, c, t);
  }

  /** Completed file data is final, and within the limit, at every point of a well-formed stream: between any
      two prefixes of it. */
  lemma {:induction false} StreamKeepsFile(cfg: Config, c: Collector, ps: seq<Part>, a: seq<Event>, b: seq<Event>)
    requires Sound(cfg, c) && a <= b <= Stream(ps) && Feed(cfg, c, a).Ok? && Feed(cfg, c, b).Ok?
    ensures
      var ca, cb := Feed(cfg, c, a).value, Feed(cfg, c, b).value;
      && (ca.fileData.Some? ==> cb.fileData == ca.fileData && cb.filename == ca.filename)
      && (cb.fileData.Some? ==> |cb.fileData.value| <= cfg.maxFile)
    decreases |ps|
  {
    hide Feed, PartEvents;
    if ps == [] {
      assert a == [] && b == [];
      FeedNothing(cfg, c);
    } else {
      var first := PartEvents(ps[0]);
      if |b| < |first| {
        assert b <= first && a <= first;
        CutPartKeeps(cfg, c, ps[0], a);
        CutPartKeeps(cfg, c, ps[0], b);
      } else {
        var b' := b[|first|..];
        assert b == first + b' && b' <= Stream(ps[1..]) by { assert Stream(ps)[|first|..] == Stream(ps[1..]); }
        FeedConcat(cfg, c, first, b');
        PartKeeps(cfg, c, ps[0]);
        var c1 := Feed(cfg, c, first).value;
        if |a| < |first| {
          assert a <= first;
          CutPartKeeps(cfg, c, ps[0], a);
          FeedNothing(cfg, c1);
          StreamKeepsFile(cfg, c1, ps[1..], [], b');
        } else {
          var a' := a[|first|..];
          assert a == first + a' && a' <= b';
          FeedConcat(cfg, c, first, a');
          StreamKeepsFile(cfg, c1, ps[1..], a', b');
        }
      }
    }
  }

  lemma FeedNothing(cfg: Config, c: Collector)
    ensures Feed(cfg, c, []) == Ok(c)
  {
  }

  lemma {:induction false} GatherKeepsFile(cfg: Config, g: Gathered, ps: seq<Part>)
    requires g.file.Some? ==> |g.file.value| <= cfg.maxFile
    requires Gather(cfg, g, ps).Ok?
    ensures
      var g' := Gather(cfg, g, ps).value;
      g'.file.Some? ==> |g'.file.value| <= cfg.maxFile
    decreases |ps|
  {
    if ps != [] { GatherKeepsFile(cfg, GatherPart(cfg, g, ps[0]).value, ps[1..]); }
  }

  function Erased(cfg: Config, ps: seq<Part>): seq<Part> {
    if ps == [] then []
    else if Unknown(cfg, ps[0]) then Erased(cfg, ps[1..])
    else [ps[0]] + Erased(cfg, ps[1..])
  }

  lemma {:induction false} GatherErased(cfg: Config, g: Gathered, ps: seq<Part>)
    ensures Gather(cfg, g, Erased(cfg, ps)) == Gather(cfg, g, ps)
    decreases |ps|
  {
    if ps != [] {
      var rest := Erased(cfg, ps[1..]);
      assert ([ps[0]] + rest)[1..] == rest;
      var r := GatherPart(cfg, g, ps[0]);
      if r.Ok? { GatherErased(cfg, r.value, ps[1..]); }
    }
  }

  /** What a caller gets: the upload so far, or the error class. */
  function Visible(r: Result<Collector, Error>): Result<Gathered, Error> {
    if r.Ok? then Ok(UploadOf(r.value)) else Err(r.error)
  }

  /** Erasing every unknown part from a well-formed stream changes nothing the caller gets. */
  lemma UnknownPartsDoNotMatter(cfg: Config, c: Collector, ps: seq<Part>)
    requires Between(c)
    ensures Visible(Feed(cfg, c, Stream(Erased(cfg, ps)))) == Visible(Feed(cfg, c, Stream(ps)))
  {
    hide Feed, Gather, Stream, Erased;
    StreamOutcome(cfg, c, ps);
    StreamOutcome(cfg, c, Erased(cfg, ps));
    GatherErased(cfg, UploadOf(c), ps);
  }

  /** The same for a stream that breaks off: an unfinished unknown part may go as well. */
  lemma UnknownPartsDoNotMatterWhenCut(cfg: Config, c: Collector, ps: seq<Part>, t: Tail)
    requires Between(c)
    ensures
      var whole := Feed(cfg, c, Stream(ps) + TailEvents(t));
      var unknown := t.Open? && Unknown(cfg, t.part);
      var erased := Feed(cfg, c, Stream(Erased(cfg, ps)) + TailEvents(if unknown then NoTail else t));
      if whole.Ok? then erased.Ok? && SameUpload(UploadOf(erased.value), UploadOf(whole.value)) else erased == whole
  {
    hide Feed, Gather, Stream, Erased, TailEvents, PartNameOf, Flat;
    CutStreamOutcome(cfg, c, ps, t);
    CutStreamOutcome(cfg, c, Erased(cfg, ps), if t.Open? && Unknown(cfg, t.part) then NoTail else t);
    GatherErased(cfg, UploadOf(c), ps);
  }

  // ---------------------------------------------------------------- streams that are not well formed

  /** A data callback rewrites completed file data exactly when that data is still the open part's
      buffer, a part is open, and bytes arrive. */
  lemma DataAltersFileIff(cfg: Config, c: Collector, d: Bytes)
    requires c.fileData.Some? && (c.shared ==> c.fileData == Some(c.buffer)) && Append(cfg, c, d).Ok?
    ensures Append(cfg, c, d).value.fileData != c.fileData <==> c.shared && c.partName.Some? && d != []
  {
    if d == [] {
      assert c.buffer + d == c.buffer;
    } else {
      assert |c.buffer + d| == |c.buffer| + |d|;
    }
  }

  /** The failing stream, from the empty collector: a whole file part, then headers that name a text part with
      no part begin before them, then data. The completed file grows by that data. */
  lemma LateHeadersAlterFile(cfg: Config, p: Part, hs: seq<Header>, d: Bytes)
    requires PartNameOf(cfg, p) == Some(cfg.filePart) && |Flat(p.data)| <= cfg.maxFile
    requires IsText(cfg, NameIn(cfg, HeaderMap(hs, HeaderMap(p.headers, map[]))))
    requires |Flat(p.data)| + |d| <= MAX_TEXT
    ensures
      var r := Feed(cfg, EMPTY, PartEvents(p) + (HeaderEvents(hs) + [HeadersFinished, PartData(d)]));
      r.Ok? && r.value.fileData == Some(Flat(p.data) + d)
  {
    hide Feed, HeaderMap, Flat, NameIn, FilenameIn, PartEvents, HeaderEvents;
    var tail := HeaderEvents(hs) + [HeadersFinished, PartData(d)];
    FeedConcat(cfg, EMPTY, PartEvents(p), tail);
    FilePartShares(cfg, EMPTY, p);
    var c := Feed(cfg, EMPTY, PartEvents(p)).value;
    FeedConcat(cfg, c, HeaderEvents(hs), [HeadersFinished, PartData(d)]);
    HeadersAccumulate(cfg, c, hs);
    var c1 := c.(headers := HeaderMap(hs, c.headers));
    FeedTwo(cfg, c1, HeadersFinished, [PartData(d)]);
    assert [HeadersFinished] + [PartData(d)] == [HeadersFinished, PartData(d)];
    var c2 := FinishHeaders(cfg, c1).value;
    FeedOne(cfg, c2, PartData(d));
  }

  /** After the file part its buffer and the file data are one, and its headers are still there. */
  lemma FilePartShares(cfg: Config, c: Collector, p: Part)
    requires Between(c) && c.fileData.None?
    requires PartNameOf(cfg, p) == Some(cfg.filePart) && |Flat(p.data)| <= cfg.maxFile
    ensures
      var r := Feed(cfg, c, PartEvents(p));
      && r.Ok? && Between(r.value) && r.value.shared && r.value.buffer == Flat(p.data)
      && r.value.fileData == Some(Flat(p.data)) && r.value.fields == c.fields
      && r.value.headers == HeaderMap(p.headers, map[])
  {
    hide Feed, HeaderMap, Flat, FilenameIn, DataEvents, PartEvents;
    PartInSteps(cfg, c, p);
    var ready := Opened(cfg, c, p).value;
    assert ready.buffer + Flat(p.data) == Flat(p.data);
    DataOutcome(cfg, ready, p.data);
  }
}
