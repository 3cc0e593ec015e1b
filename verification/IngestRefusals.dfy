/** Deliveries that no redelivery can settle: a delimiter the envelope refuses, and a path that does not
    parse. */
module IngestRefusals {
  import opened Wrappers
  import opened Text
  import opened Uuids
  import opened ObjectPath
  import opened Ingest
  import opened IngestInvariant
  import opened IngestTheorems
  import opened IngestConvergence

  // ---------------------------------------------------------------- delimiters

  /** Preflight accepts the bytes with a delimiter that is not one character. */
  predicate OddDelimiter(env: Env, data: Bytes) {
    env.preflight(data).Sniffed? && |env.preflight(data).delimiter| != 1
  }

  predicate RowHolds(env: Env, r: Row, data: Bytes) {
    Keyed(r) && r.sha == Some(env.sha256(data))
  }

  lemma NotAnnounced(env: Env, r: Row, data: Bytes, e: Envelope)
    requires CollisionFree(env) && OddDelimiter(env, data) && Announces(env, e, r)
    ensures r.sha != Some(env.sha256(data))
  {
    var behind :| BytesBehind(env, r, behind) && e.delimiter == env.preflight(behind).delimiter;
    assert behind != data;
  }

  lemma NoMessageNamesIt(env: Env, s: State, i: nat, data: Bytes, e: Envelope)
    requires CollisionFree(env) && Inv(env, s) && OddDelimiter(env, data)
    requires i < |s.rows| && RowHolds(env, s.rows[i], data) && e in s.topic
    ensures e.bronzeRef != s.rows[i].id
  {
    hide RowOk, Spaced, CollisionFree, OddDelimiter;
    var n :| 0 <= n < |s.topic| && s.topic[n] == e;
    var j :| 0 <= j < |s.rows| && Announces(env, e, s.rows[j]);
    NotAnnounced(env, s.rows[j], data, e);
  }

  /** In every run, whatever the faults: bytes whose delimiter is not one character are never announced,
      and a row of theirs stays RECEIVED and unmarked for good. */
  lemma OddDelimiterIsNeverAnnounced(env: Env, s0: State, run: seq<Attempt>, i: nat, data: Bytes)
    requires CollisionFree(env) && Initial(s0) && OddDelimiter(env, data)
    requires i < |Exec(env, s0, run).rows| && RowHolds(env, Exec(env, s0, run).rows[i], data)
    ensures
      var s := Exec(env, s0, run);
      && s.rows[i].status == RECEIVED && s.rows[i].publishedAt == None
      && forall e :: e in s.topic ==> e.bronzeRef != s.rows[i].id
  {
    hide Exec, Inv;
    ReachableInv(env, s0, run);
    var s := Exec(env, s0, run);
    forall e | e in s.topic ensures e.bronzeRef != s.rows[i].id {
      NoMessageNamesIt(env, s, i, data, e);
    }
    UnnamedMeansUnpublished(s.topic, s.rows[i].id);
    KeyedRowIsNew(env, s0, run, i);
    PublishConservation(env, s0, run, s.rows[i].id);
    assert !Marked(s.rows, s.rows[i].id);
    PriorBytes(env, s, data, i);
    assert !IsPublished(s.rows[i]);
  }

  /** From every reachable state, every delivery of such bytes raises, publishes nothing, marks nothing and
      at most adds its own row: no redelivery ever settles the key. */
  lemma OddDelimiterRaisesEveryTime(env: Env, s0: State, run: seq<Attempt>, a: Attempt)
    requires CollisionFree(env) && Initial(s0) && a.download.Some? && OddDelimiter(env, a.download.value)
    ensures
      var s := Exec(env, s0, run);
      var (s', o) := Process(env, s, a);
      o.Raised? && s'.topic == s.topic && Grew(env, a, s.rows, s'.rows)
  {
    hide Process, Exec, Inv;
    var s, data := Exec(env, s0, run), a.download.value;
    var (s', o) := Process(env, s, a);
    ReachableInv(env, s0, run);
    InvDistinct(env, s);
    ExecSnoc(env, s0, run, a);
    var x := ProcessDid(env, s, a);
    if x.announced.Some? {
      AnnouncedIsNamed(env, s, a, s', x);
      OddDelimiterIsNeverAnnounced(env, s0, run + [a], x.announced.value, data);
      assert false;
    }
    if o.Done? {
      DoneConcludes(env, s, a);
      var i :| 0 <= i < |s'.rows| && HasKey(s'.rows[i], KeyFor(env, a.event, data)) && Concluded(s'.rows[i]);
      OddDelimiterIsNeverAnnounced(env, s0, run + [a], i, data);
      assert false;
    }
  }

  lemma AnnouncedIsNamed(env: Env, s: State, a: Attempt, s': State, x: Effects)
    requires Did(env, s, a, s', x) && x.announced.Some?
    ensures
      var k := x.announced.value;
      && a.download.Some? && k < |s'.rows| && RowHolds(env, s'.rows[k], a.download.value)
      && exists e :: e in s'.topic && e.bronzeRef == s'.rows[k].id
  {
    assert s'.topic[|s.topic|] in s'.topic;
  }

  lemma DoneConcludes(env: Env, s: State, a: Attempt)
    requires DistinctIds(s.rows) && Process(env, s, a).1.Done?
    ensures a.download.Some?
    ensures
      var rows := Process(env, s, a).0.rows;
      exists i :: 0 <= i < |rows| && HasKey(rows[i], KeyFor(env, a.event, a.download.value)) && Concluded(rows[i])
  {
    hide Process, AfterLookup, HasKey, Concluded, DistinctIds, PiiClears, CrossCheck, Blank;
    ProcessStages(env, s, a);
    var rows := Process(env, s, a).0.rows;
    LookupDone(env, s.(clock := s.clock + a.beforeLookup), a, a.download.value);
    var r :| r in rows && HasKey(r, KeyFor(env, a.event, a.download.value)) && Concluded(r);
    var i :| 0 <= i < |rows| && rows[i] == r;
  }

  // ---------------------------------------------------------------- a file that never settles

  const NIL: Uuid := "00000000-0000-0000-0000-000000000000"

  /** A hash that keeps its input, a preflight that rejects blank bytes and sniffs `||` in any others, no PII. */
  function PlainEnv(): Env {
    Env("b", (data: Bytes) => seq(|data|, i requires 0 <= i < |data| => data[i] as char) + "#",
        (data: Bytes) => if BlankBytes(data) then Rejected("not_csv") else Sniffed(["a", "b"], 1, "||"),
        (columns: seq<string>) => {}, false)
  }

  /** The text `a||b`, a line feed and `1||2`. */
  const FILE: Bytes := [97, 124, 124, 98, 10, 49, 124, 124, 50]

  lemma PlainEnvIsLawful()
    ensures CollisionFree(PlainEnv()) && HashNeverBlank(PlainEnv()) && PreflightLaws(PlainEnv())
    ensures PlainEnv().preflight(FILE) == Sniffed(["a", "b"], 1, "||")
  {
    var env := PlainEnv();
    forall x: Bytes, y: Bytes | env.sha256(x) == env.sha256(y) ensures x == y {
      assert |env.sha256(x)| == |x| + 1 && |env.sha256(y)| == |y| + 1;
      forall i | 0 <= i < |x| ensures x[i] == y[i] {
        assert env.sha256(x)[i] == x[i] as char && env.sha256(y)[i] == y[i] as char;
      }
    }
    forall x: Bytes ensures !Blank(env.sha256(x)) {
      BlankIsAllSpace(env.sha256(x));
      assert env.sha256(x)[|x|] == '#';
    }
    assert FILE[0] == 97;
  }

  function EventAt(uri: string): Event {
    Event(NIL, NIL, NIL, "s", NIL, "us_aaaaaaaaaaaa", uri, None, None)
  }

  function CleanAttempt(e: Event, newId: Uuid): Attempt {
    Attempt(e, Some(FILE), true, Completes, Completes, Completes, newId, 0, 0, 0)
  }

  /** Were the sniffer ever to return two characters, this file would be stranded: a valid event at its own path,
      bytes that pass preflight's own checks and the PII gate. Its first delivery meets no fault, writes its row
      and raises; so does every later one, after any run. */
  lemma TwoCharacterDelimiterStrands() returns (e: Event)
    ensures
      var env, s0, a := PlainEnv(), State([], [], 0), CleanAttempt(e, NIL);
      var (s1, o) := Process(env, s0, a);
      && CollisionFree(env) && HashNeverBlank(env) && PreflightLaws(env)
      && Initial(s0) && ValidEvent(e) && FaultFree(s0, a) && ReachesLookup(env, a)
      && PassesGates(env, FILE) && o == Raised(EnvelopeInvalid)
      && |s1.rows| == 1 && s1.rows[0].status == RECEIVED && s1.topic == []
      && (forall run, again: Attempt :: again.download == Some(FILE) ==> Process(env, Exec(env, s0, run), again).1.Raised?)
  {
    hide Process, Exec, CrossCheck, ReachesLookup, CollisionFree, ValidEvent, HashNeverBlank, PreflightLaws, BlankBytes;
    var env, s0 := PlainEnv(), State([], [], 0);
    PlainEnvIsLawful();
    e := SampleEvent();
    FirstDeliveryStrands(env, s0, e);
    forall run, again: Attempt | again.download == Some(FILE) ensures Process(env, Exec(env, s0, run), again).1.Raised? {
      OddDelimiterRaisesEveryTime(env, s0, run, again);
    }
  }

  lemma SampleIsValid(uri: string)
    requires uri != ""
    ensures ValidEvent(EventAt(uri))
  {
  }

  lemma SampleEvent() returns (e: Event)
    ensures ValidEvent(e) && CrossCheck(PlainEnv(), e).Ok?
  {
    hide CrossCheck, Build, ValidEvent;
    var env, utc: UtcDate := PlainEnv(), CivilDate(2026, 1, 1);
    OwnPathPassesCrossCheck(env, EventAt(""), utc);
    e := EventAt("gs://" + ("b" + ("/" + Build(NIL, "s", NIL, Aware(utc), "csv").value)));
    OwnPathPassesCrossCheck(env, e, utc);
    SampleIsValid(e.gcsUri);
  }

  lemma FirstDeliveryStrands(env: Env, s0: State, e: Event)
    requires env == PlainEnv() && s0 == State([], [], 0) && ValidEvent(e)
    requires CrossCheck(env, e).Ok?
    ensures
      var a := CleanAttempt(e, NIL);
      var (s1, o) := Process(env, s0, a);
      && ReachesLookup(env, a) && o == Raised(EnvelopeInvalid)
      && |s1.rows| == 1 && s1.rows[0].status == RECEIVED && s1.topic == []
  {
    hide CrossCheck, Blank, FindPrior, BlankBytes;
    var a := CleanAttempt(e, NIL);
    ValidSessionIsNotBlank(e);
    PlainEnvIsLawful();
    ProcessStages(env, s0, a);
    assert FindPrior([], KeyFor(env, e, FILE), -WINDOW).None?;
  }

  // ---------------------------------------------------------------- paths

  /** The URI does not split, or its key is no object path. */
  predicate PathUnreadable(e: Event) {
    match SplitUri(e.gcsUri)
    case None => true
    case Some((_, key)) => Parse(key).Err?
  }

  /** An event is refused for its path's shape exactly when the path cannot be read. From every state, and
      whatever the outside world does, its delivery then changes nothing and is refused, never acknowledged. */
  lemma UnreadablePathIsRefused(env: Env, s: State, d: Delivery)
    requires Read(d.body).Parsed?
    ensures CrossCheck(env, Read(d.body).event) == Err(StorageFailure) <==> PathUnreadable(Read(d.body).event)
    ensures PathUnreadable(Read(d.body).event) ==> ProcessMessage(env, s, d) == (s, Some(Nack))
  {
    hide SplitUri, Parse, AfterLookup, Read;
  }

  function Readable(run: seq<Attempt>): seq<Attempt> {
    if run == [] then []
    else
      var front, a := run[..|run| - 1], run[|run| - 1];
      if PathUnreadable(a.event) then Readable(front) else Readable(front) + [a]
  }

  /** A run leaves the state it would leave without those deliveries. */
  lemma {:induction false} UnreadablePathsChangeNothing(env: Env, s: State, run: seq<Attempt>)
    ensures Exec(env, s, run) == Exec(env, s, Readable(run))
  {
    hide Process, PathUnreadable;
    if run != [] {
      var front, a := run[..|run| - 1], run[|run| - 1];
      UnreadablePathsChangeNothing(env, s, front);
      if PathUnreadable(a.event) {
        UnreadableStops(env, Exec(env, s, front), a);
      } else {
        ExecSnoc(env, s, Readable(front), a);
      }
    }
  }

  lemma UnreadableStops(env: Env, s: State, a: Attempt)
    requires PathUnreadable(a.event)
    ensures Process(env, s, a) == (s, Raised(StorageFailure))
  {
    hide SplitUri, Parse, AfterLookup;
  }

  /** The failing input: a valid event whose URI has no scheme. */
  lemma SchemelessUriIsRefused(env: Env, s: State, id: string, a: Attempt)
    ensures
      var e := EventAt("not-a-uri");
      && ValidEvent(e)
      && ProcessMessage(env, s, Delivery(id, Object(Some(Zoned(0, 0)), Some(e)), a)) == (s, Some(Nack))
  {
    hide ProcessMessage, SplitUri, ValidEvent;
    SampleIsValid("not-a-uri");
    var d := Delivery(id, Object(Some(Zoned(0, 0)), Some(EventAt("not-a-uri"))), a);
    NoSchemeNoSplit("not-a-uri");
    UnreadablePathIsRefused(env, s, d);
  }

  lemma NoSchemeNoSplit(uri: string)
    requires uri != "" && !IsSpace(uri[0]) && !IsSpace(uri[|uri| - 1]) && uri[0] != 'g'
    ensures SplitUri(uri) == None
  {
    hide TakeSegment;
    assert "gs://"[0] == 'g';
  }
}
