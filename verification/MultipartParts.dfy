/** What an upload holds, told from the parts as they were sent: their Content-Disposition headers and their data. */
module MultipartParts {
  import opened Wrappers
  import opened Text
  import opened Multipart
  import opened MultipartReader

  const CONTENT_DISPOSITION := "content-disposition"

  /** The byte is the character, or its capital. */
  predicate SameLetter(b: Byte, c: char) {
    b as int == c as int || ('a' <= c <= 'z' && b as int == c as int - 32)
  }

  /** The header field is Content-Disposition, in any letter case. */
  predicate IsDisposition(field: Bytes) {
    |field| == |CONTENT_DISPOSITION| && forall i :: 0 <= i < |field| ==> SameLetter(field[i], CONTENT_DISPOSITION[i])
  }

  /** The value of the part's Content-Disposition header; of several, the last. */
  function Disposition(hs: seq<Header>): Option<Bytes> {
    if hs == [] then None
    else
      var last := hs[|hs| - 1];
      if IsDisposition(Flat(last.field)) then Some(Flat(last.value)) else Disposition(hs[..|hs| - 1])
  }

  /** A parameter of the part's Content-Disposition. */
  function Param(cfg: Config, p: Part, key: Bytes): Option<string> {
    var params := cfg.options(Disposition(p.headers));
    if key in params then Some(cfg.lenient(params[key])) else None
  }

  /** The `name` parameter. */
  function Name(cfg: Config, p: Part): Option<string> {
    Param(cfg, p, [110, 97, 109, 101])
  }

  /** The `filename` parameter. */
  function Filename(cfg: Config, p: Part): Option<string> {
    Param(cfg, p, [102, 105, 108, 101, 110, 97, 109, 101])
  }

  // ---------------------------------------------------------------- the collector reads these

  lemma LowerSpells(field: Bytes)
    ensures Lower(field) == DISPOSITION <==> IsDisposition(field)
  {
    assert |CONTENT_DISPOSITION| == 19 && |DISPOSITION| == 19;
    assert forall i :: 0 <= i < 19 ==> DISPOSITION[i] as int == CONTENT_DISPOSITION[i] as int;
    if |field| == 19 {
      forall i | 0 <= i < 19 ensures LowerByte(field[i]) == DISPOSITION[i] <==> SameLetter(field[i], CONTENT_DISPOSITION[i]) {
        DispositionLetter(i);
      }
    }
  }

  /** Its characters are lower-case letters and one hyphen. */
  lemma DispositionLetter(i: nat)
    requires i < |CONTENT_DISPOSITION|
    ensures 'a' <= CONTENT_DISPOSITION[i] <= 'z' || CONTENT_DISPOSITION[i] == '-'
  {
  }

  lemma {:induction false} HeaderMapSnoc(hs: seq<Header>, h: Header, acc: map<Bytes, Bytes>)
    ensures HeaderMap(hs + [h], acc) == HeaderMap(hs, acc)[Lower(Flat(h.field)) := Flat(h.value)]
    decreases |hs|
  {
    if hs == [] {
      assert (hs + [h])[1..] == [];
    } else {
      assert (hs + [h])[1..] == hs[1..] + [h];
      HeaderMapSnoc(hs[1..], h, acc[Lower(Flat(hs[0].field)) := Flat(hs[0].value)]);
    }
  }

  lemma {:induction false} DispositionIs(hs: seq<Header>)
    ensures Lookup(HeaderMap(hs, map[]), DISPOSITION) == Disposition(hs)
  {
    hide HeaderMap, Lower, IsDisposition;
    if hs == [] {
      NoHeaders();
    } else {
      var front, last := hs[..|hs| - 1], hs[|hs| - 1];
      DispositionIs(front);
      assert hs == front + [last];
      HeaderMapSnoc(front, last, map[]);
      LowerSpells(Flat(last.field));
    }
  }

  lemma NoHeaders()
    ensures HeaderMap([], map[]) == map[]
  {
  }

  /** The part name and filename the collector acts on are the parameters of those names. */
  lemma NamesAre(cfg: Config, p: Part)
    ensures PartNameOf(cfg, p) == Name(cfg, p)
    ensures FilenameIn(cfg, HeaderMap(p.headers, map[])) == Filename(cfg, p)
  {
    hide HeaderMap, Disposition;
    DispositionIs(p.headers);
  }

  // ---------------------------------------------------------------- one part

  /** What one whole part does to the upload so far, however its callbacks are cut. The part named as the file becomes
      the file, with its filename, unless there is one already or it is too large. A part named as a text part becomes
      its field, unless there is one already, or it is over 1024 bytes, or it does not decode. Any other does nothing. */
  lemma PartReads(cfg: Config, c: Collector, p: Part)
    requires Between(c)
    ensures
      var r, data := Feed(cfg, c, PartEvents(p)), Flat(p.data);
      match Name(cfg, p) {
        case None => r.Ok? && UploadOf(r.value) == UploadOf(c)
        case Some(name) =>
          if name == cfg.filePart then
            if c.fileData.Some? then r == Err(BadRequest)
            else if |data| > cfg.maxFile then r == Err(TooLarge)
            else r.Ok? && UploadOf(r.value) == Gathered(Some(data), Filename(cfg, p), c.fields)
          else if name in cfg.textParts then
            if name in c.fields || |data| > 1024 || cfg.strict(data) == None then r == Err(BadRequest)
            else r.Ok? && UploadOf(r.value) == Gathered(c.fileData, c.filename, c.fields[name := cfg.strict(data).value])
          else r.Ok? && UploadOf(r.value) == UploadOf(c)
      }
  {
    hide Feed, Name, Filename, HeaderMap, Flat, PartEvents;
    PartOutcome(cfg, c, p);
    NamesAre(cfg, p);
  }

  /** An ordinary file part: one header, `Content-Disposition` in any letter case, with a name and a filename. */
  lemma OrdinaryFilePart(cfg: Config, c: Collector, p: Part, n: Bytes, f: Bytes)
    requires Between(c) && c.fileData.None? && |Flat(p.data)| <= cfg.maxFile
    requires |p.headers| == 1 && IsDisposition(Flat(p.headers[0].field))
    requires cfg.options(Some(Flat(p.headers[0].value))) ==
             map[[110, 97, 109, 101] := n, [102, 105, 108, 101, 110, 97, 109, 101] := f]
    requires cfg.lenient(n) == cfg.filePart
    ensures
      var r := Feed(cfg, c, PartEvents(p));
      r.Ok? && UploadOf(r.value) == Gathered(Some(Flat(p.data)), Some(cfg.lenient(f)), c.fields)
  {
    hide Feed, Flat, PartEvents, IsDisposition;
    PartReads(cfg, c, p);
    assert Disposition(p.headers) == Some(Flat(p.headers[0].value));
  }

  // ---------------------------------------------------------------- a whole upload

  predicate IsFile(cfg: Config, p: Part) {
    Name(cfg, p) == Some(cfg.filePart)
  }

  predicate IsField(cfg: Config, p: Part, name: string) {
    Name(cfg, p) == Some(name) && name != cfg.filePart && name in cfg.textParts
  }

  lemma GatherPartIs(cfg: Config, g: Gathered, p: Part)
    requires GatherPart(cfg, g, p).Ok?
    ensures
      var g' := GatherPart(cfg, g, p).value;
      && (IsFile(cfg, p) ==> g.file.None? && g' == Gathered(Some(Flat(p.data)), Filename(cfg, p), g.fields))
      && (!IsFile(cfg, p) ==> g'.file == g.file && g'.filename == g.filename)
      && (forall name :: name in g'.fields <==> name in g.fields || IsField(cfg, p, name))
      && (forall name :: name in g.fields ==> g'.fields[name] == g.fields[name] && !IsField(cfg, p, name))
      && (forall name :: IsField(cfg, p, name) ==> cfg.strict(Flat(p.data)) == Some(g'.fields[name]))
  {
    hide Name, Filename, HeaderMap, Flat;
    NamesAre(cfg, p);
  }

  /** The file comes from the one part named as it. */
  lemma {:induction false} GatherHoldsFile(cfg: Config, g: Gathered, ps: seq<Part>)
    requires Gather(cfg, g, ps).Ok?
    ensures
      var g' := Gather(cfg, g, ps).value;
      && (forall k :: 0 <= k < |ps| && IsFile(cfg, ps[k]) ==>
            && g.file.None? && g'.file == Some(Flat(ps[k].data)) && g'.filename == Filename(cfg, ps[k])
            && forall j :: 0 <= j < |ps| && IsFile(cfg, ps[j]) ==> j == k)
      && ((forall k :: 0 <= k < |ps| ==> !IsFile(cfg, ps[k])) ==> g'.file == g.file && g'.filename == g.filename)
    decreases |ps|
  {
    hide GatherPart, IsFile, IsField, Filename, Flat;
    if ps != [] {
      var p, rest := ps[0], ps[1..];
      GatherPartIs(cfg, g, p);
      GatherHoldsFile(cfg, GatherPart(cfg, g, p).value, rest);
      assert forall k :: 0 < k < |ps| ==> ps[k] == rest[k - 1];
    }
  }

  /** Each field stays once it is there, and comes from a part named as it. */
  lemma {:induction false} GatherHoldsField(cfg: Config, g: Gathered, ps: seq<Part>, name: string)
    requires Gather(cfg, g, ps).Ok?
    ensures
      var g' := Gather(cfg, g, ps).value;
      && (name in g.fields ==> name in g'.fields && g'.fields[name] == g.fields[name])
      && (name in g'.fields && name !in g.fields ==>
            exists k :: 0 <= k < |ps| && IsField(cfg, ps[k], name) && cfg.strict(Flat(ps[k].data)) == Some(g'.fields[name]))
    decreases |ps|
  {
    hide GatherPart, IsFile, IsField, Filename, Flat;
    if ps != [] {
      var p, rest := ps[0], ps[1..];
      var g1, g' := GatherPart(cfg, g, p).value, Gather(cfg, g, ps).value;
      GatherPartIs(cfg, g, p);
      GatherHoldsField(cfg, g1, rest, name);
      if name in g'.fields && name !in g.fields && name !in g1.fields {
        var k :| 0 <= k < |rest| && IsField(cfg, rest[k], name) && cfg.strict(Flat(rest[k].data)) == Some(g'.fields[name]);
        assert ps[k + 1] == rest[k];
      }
    }
  }

  /** A part named as a field leaves the field there, and is the only one of its name. */
  lemma {:induction false} EveryFieldPartIsHeld(cfg: Config, g: Gathered, ps: seq<Part>, name: string, k: nat)
    requires Gather(cfg, g, ps).Ok? && k < |ps| && IsField(cfg, ps[k], name)
    ensures name !in g.fields && name in Gather(cfg, g, ps).value.fields
    ensures cfg.strict(Flat(ps[k].data)) == Some(Gather(cfg, g, ps).value.fields[name])
    ensures forall j :: 0 <= j < |ps| && IsField(cfg, ps[j], name) ==> j == k
    decreases |ps|
  {
    hide GatherPart, IsFile, IsField, Filename, Flat;
    var p, rest := ps[0], ps[1..];
    var g1 := GatherPart(cfg, g, p).value;
    GatherPartIs(cfg, g, p);
    if k > 0 {
      EveryFieldPartIsHeld(cfg, g1, rest, name, k - 1);
    } else {
      GatherHoldsField(cfg, g1, rest, name);
    }
    forall j | 0 <= j < |ps| && IsField(cfg, ps[j], name) ensures j == k {
      if j > 0 && k == 0 { EveryFieldPartIsHeld(cfg, g1, rest, name, j - 1); }
    }
  }

  /** The end of the read, in plain terms: a file, and every text part, not blank. */
  lemma FinishIs(cfg: Config, g: Gathered)
    ensures
      var complete := g.file.Some? && forall name :: name in cfg.textParts ==> name in g.fields && !Blank(g.fields[name]);
      Finish(cfg, g) == if complete then Ok(Upload(g.file.value, g.filename, g.fields)) else Err(BadRequest)
  {
    hide Blank;
  }

  /** End to end: of a body made of whole parts and perhaps an unfinished one, in any chunks within the ceiling, an
      accepted upload holds the data and filename of the one part named as the file, and as each field the decoded data
      of the one part of that name; every text part is there and not blank. */
  lemma AcceptedUploadHolds<S(!new)>(cfg: Config, t: Tokeniser<S>, ceiling: nat, chunks: seq<Bytes>, ps: seq<Part>, tail: Tail)
    requires ChunkLaw(t) && |Concat(chunks)| <= ceiling
    requires Fused(After(t, Concat(chunks)).1) == Fused(Stream(ps) + TailEvents(tail))
    requires Outcome(cfg, Streamed(cfg, t, ceiling, chunks)).Ok?
    ensures
      var u := Outcome(cfg, Streamed(cfg, t, ceiling, chunks)).value;
      && (exists k :: 0 <= k < |ps| && IsFile(cfg, ps[k]) && u.file == Flat(ps[k].data) && u.filename == Filename(cfg, ps[k])
                      && forall j :: 0 <= j < |ps| && IsFile(cfg, ps[j]) ==> j == k)
      && |u.file| <= cfg.maxFile
      && (forall name :: name in cfg.textParts ==> name in u.fields && !Blank(u.fields[name]))
      && (forall name :: name in u.fields ==>
            exists k :: 0 <= k < |ps| && IsField(cfg, ps[k], name) && cfg.strict(Flat(ps[k].data)) == Some(u.fields[name]))
  {
    hide Streamed, Fused, Stream, TailEvents, TailCheck, ChunkLaw, Gather, Finish, IsFile, IsField, Filename, Flat, Blank, Outcome;
    UploadIsItsParts(cfg, t, ceiling, chunks, ps, tail);
    var none := Gathered(None, None, map[]);
    var g := Gather(cfg, none, ps).value;
    FinishIs(cfg, g);
    GatherHoldsFile(cfg, none, ps);
    forall name | name in g.fields
      ensures exists k :: 0 <= k < |ps| && IsField(cfg, ps[k], name) && cfg.strict(Flat(ps[k].data)) == Some(g.fields[name])
    {
      GatherHoldsField(cfg, none, ps, name);
    }
  }
}
