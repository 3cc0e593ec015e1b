/** The CSV ingest worker as a crash-and-redelivery protocol (services/csv-ingest-worker).

    One `Attempt` is one delivery of one `csv.received` event, together with everything the outside
    world decides during it: what the download returned, which id was minted, how far the clock moved
    and, for every I/O call, whether it completed, failed without effect, or took effect and then
    failed. A run is any sequence of attempts, so every crash and redelivery pattern of a single
    worker is a run. */
module Ingest {
  import opened Wrappers
  import opened Text
  import opened Uuids
  import opened ObjectPath

  // ---------------------------------------------------------------- data

  /** Timestamps, in microseconds. */
  type Instant = int

  /** The 24 hour dedup window. */
  const WINDOW: Instant := 86_400_000_000

  const CSV_CHANNEL := "csv_upload"

  datatype Event = Event(
    trace: Uuid, tenant: Uuid, store: Uuid, source: string, template: Uuid,
    session: string, gcsUri: string, tenantCode: Option<string>, storeCode: Option<string>)

  /** The upload-session pattern `us_` and twelve lower-case letters or digits. */
  predicate IsSessionId(s: string) {
    && |s| == 15 && s[0] == 'u' && s[1] == 's' && s[2] == '_'
    && forall i :: 3 <= i < 15 ==> 'a' <= s[i] <= 'z' || '0' <= s[i] <= '9'
  }

  /** What the frozen envelope contract promises of a parsed event. */
  predicate ValidEvent(e: Event) {
    e.source != "" && e.gcsUri != "" && IsSessionId(e.session)
  }

  /** A timestamp as JSON spells it: without a zone, or local microseconds since year 1 with the offset
      east of UTC. */
  datatype Stamp = Zoneless | Zoned(local: int, offset: int)

  /** The microseconds a `datetime` can hold, years 1 to 9999. */
  const DATETIME_END: int := 3_652_059 * 86_400_000_000

  /** `ensure_utc`: `None` where it raises, for want of a zone or because UTC leaves the calendar. Neither
      exception is a `ValueError`. */
  function ToUtc(t: Stamp): Option<int> {
    if t.Zoned? && 0 <= t.local - t.offset < DATETIME_END then Some(t.local - t.offset) else None
  }

  /** A message body: not JSON; JSON the loader gives up on (nesting, digits); JSON but not an object; or
      an object with its `received_ts`, if that is a timestamp, and the event its other fields make, if
      they have the types of one. */
  datatype Body = NotJson | Unloadable | NotObject | Object(receivedTs: Option<Stamp>, event: Option<Event>)

  /** What parsing a body comes to: a contract violation, an event, or an exception of another kind. */
  datatype Message = Malformed | Parsed(event: Event) | Escapes

  /** `parse_csv_received`. The timestamp validator runs whatever the other fields hold, and what it
      raises is no validation error. */
  function Read(b: Body): (m: Message)
    ensures m.Parsed? ==> ValidEvent(m.event)
  {
    match b
    case NotJson => Malformed
    case Unloadable => Escapes
    case NotObject => Malformed
    case Object(ts, event) =>
      if ts.Some? && ToUtc(ts.value).None? then Escapes
      else if ts.None? || event.None? || !ValidEvent(event.value) then Malformed
      else Parsed(event.value)
  }

  datatype Status = RECEIVED | PUBLISHED | FAILED

  datatype Row = Row(
    id: Uuid, tenant: Uuid, store: Uuid, source: string, channel: string, trace: Uuid, gcsUri: string,
    size: nat, sha: Option<string>, rowCount: Option<nat>, session: Option<string>, template: Option<Uuid>,
    receivedAt: Instant, publishedAt: Option<Instant>, status: Status)

  datatype Envelope = Envelope(
    trace: Uuid, tenant: Uuid, store: Uuid, source: string, template: Uuid, bronzeRef: Uuid,
    gcsUri: string, receivedTs: Instant, delimiter: string,
    tenantCode: Option<string>, storeCode: Option<string>)

  datatype Sniff =
    | Sniffed(columns: seq<string>, rowCount: nat, delimiter: string)
    | Rejected(reason: string)

  /** The collaborators the worker is wired with. The hash, the structural sniff and the PII name
      detector are fixed functions of what they are given. */
  datatype Env = Env(
    bucket: string, sha256: Bytes -> string, preflight: Bytes -> Sniff,
    detectPii: seq<string> -> set<string>, piiBackend: bool)

  datatype Fate = Completes | FailsBefore | FailsAfter

  datatype Attempt = Attempt(
    event: Event, download: Option<Bytes>, lookupOk: bool, insert: Fate, publish: Fate, mark: Fate,
    newId: Uuid, beforeLookup: nat, beforeInsert: nat, beforeMark: nat)

  datatype Failure =
    | StorageFailure | PathMismatch | ContractFailure | PiiBlocked
    | PreflightFailure | EnvelopeInvalid | IoFailure

  datatype Disposition = Ingested | DuplicateNoop | DuplicateResumed | PreflightFailed

  datatype Outcome = Done(disposition: Disposition, trace: Uuid, bronzeId: Uuid) | Raised(failure: Failure)

  /** The durable state: the bronze table, the `ingress.ready` topic and the clock. */
  datatype State = State(rows: seq<Row>, topic: seq<Envelope>, clock: Instant)

  datatype Key = Key(tenant: Uuid, session: string, sha: string)

  /** Which bodies come to what: an exception other than a contract violation exactly for JSON the loader gives
      up on and for an object whose timestamp has no zone or no place in the UTC calendar (microseconds 0 to
      315537897599999999 of its years 1 to 9999); an event exactly for an object with a timestamp that has both and
      fields that meet the contract. */
  lemma ReadExactly(b: Body)
    ensures Read(b).Escapes? <==>
      || b == Unloadable
      || (b.Object? && b.receivedTs == Some(Zoneless))
      || (b.Object? && exists x, y :: b.receivedTs == Some(Zoned(x, y)) && !(0 <= x - y < 315_537_897_600_000_000))
    ensures Read(b).Parsed? <==>
      && b.Object? && b.event.Some? && ValidEvent(b.event.value)
      && exists x, y :: b.receivedTs == Some(Zoned(x, y)) && 0 <= x - y < 315_537_897_600_000_000
    ensures Read(b).Parsed? ==> Read(b).event == b.event.value
  {
    hide ValidEvent;
    if b.Object? && b.receivedTs.Some? && b.receivedTs.value.Zoned? {
      var ts := b.receivedTs.value;
      assert b.receivedTs == Some(Zoned(ts.local, ts.offset));
    }
  }

  /** The contract on an event's texts: a source, a URI, and `us_` with twelve lower-case letters or digits. */
  lemma ValidEventIs(e: Event)
    ensures ValidEvent(e) <==>
      && |e.source| > 0 && |e.gcsUri| > 0 && |e.session| == 3 + 12 && e.session[..3] == "us_"
      && forall c :: c in e.session[3..] ==> 'a' <= c <= 'z' || '0' <= c <= '9'
  {
    if |e.session| == 15 {
      var tail := e.session[3..];
      assert forall i :: 3 <= i < 15 ==> e.session[i] == tail[i - 3] && tail[i - 3] in tail;
      assert e.session[..3] == [e.session[0], e.session[1], e.session[2]];
    }
  }

  // ---------------------------------------------------------------- bronze

  predicate HasKey(r: Row, k: Key) {
    r.channel == CSV_CHANNEL && r.tenant == k.tenant && r.session == Some(k.session) && r.sha == Some(k.sha)
  }

  /** The row carries a full dedup key (older smoke rows and other channels do not). */
  predicate Keyed(r: Row) {
    r.channel == CSV_CHANNEL && r.session.Some? && r.sha.Some?
  }

  function KeyOf(r: Row): Key
    requires Keyed(r)
  {
    Key(r.tenant, r.session.value, r.sha.value)
  }

  predicate InWindow(r: Row, k: Key, cutoff: Instant) {
    HasKey(r, k) && r.receivedAt >= cutoff
  }

  /** The dedup lookup: the most recent row of the key inside the window. */
  function FindPrior(rows: seq<Row>, k: Key, cutoff: Instant): (r: Option<Row>)
    ensures r.None? <==> forall x :: x in rows ==> !InWindow(x, k, cutoff)
    ensures r.Some? ==> r.value in rows && InWindow(r.value, k, cutoff)
    ensures r.Some? ==> forall x :: x in rows && InWindow(x, k, cutoff) ==> x.receivedAt <= r.value.receivedAt
  {
    if rows == [] then None
    else
      var rest := FindPrior(rows[..|rows| - 1], k, cutoff);
      var last := rows[|rows| - 1];
      assert rows == rows[..|rows| - 1] + [last];
      if InWindow(last, k, cutoff) && (rest.None? || last.receivedAt >= rest.value.receivedAt)
      then Some(last) else rest
  }

  /** `PriorIngest.is_published`. */
  predicate IsPublished(r: Row) {
    r.publishedAt.Some? || r.status == PUBLISHED
  }

  /** The ingest of this row is over: it failed, or its publish is recorded. */
  predicate Concluded(r: Row) {
    r.status == FAILED || IsPublished(r)
  }

  predicate IdTaken(rows: seq<Row>, id: Uuid) {
    exists i :: 0 <= i < |rows| && rows[i].id == id
  }

  /** The INSERT transaction; the primary key refuses an id that is already there. */
  function InsertRow(rows: seq<Row>, row: Row, fate: Fate): (seq<Row>, bool) {
    if fate.FailsBefore? || IdTaken(rows, row.id) then (rows, false)
    else (rows + [row], fate.Completes?)
  }

  function Stamped(r: Row, at: Instant): Row {
    r.(publishedAt := Some(at), status := PUBLISHED)
  }

  /** The UPDATE of `mark_published`, under the tenant's row-level scope. */
  function MarkPublished(rows: seq<Row>, tenant: Uuid, id: Uuid, at: Instant): (out: seq<Row>)
    ensures |out| == |rows|
    ensures forall i :: 0 <= i < |rows| ==>
              out[i] == if rows[i].tenant == tenant && rows[i].id == id then Stamped(rows[i], at) else rows[i]
  {
    seq(|rows|, i requires 0 <= i < |rows| =>
      if rows[i].tenant == tenant && rows[i].id == id then Stamped(rows[i], at) else rows[i])
  }

  // ---------------------------------------------------------------- pipeline

  /** `_cross_check_path`: the object key, or why the event is refused. */
  function CrossCheck(env: Env, e: Event): (r: Result<string, Failure>)
    ensures r.Err? ==> r.error == StorageFailure || r.error == PathMismatch
  {
    match SplitUri(e.gcsUri)
    case None => Err(StorageFailure)
    case Some((bucket, key)) =>
      match Parse(key)
      case Err(_) => Err(StorageFailure)
      case Ok(p) =>
        if bucket != env.bucket || p.tenant != e.tenant || p.source != e.source || p.trace != e.trace
           || p.ext != "csv"
        then Err(PathMismatch)
        else Ok(key)
  }

  /** The header clears the fail-loud PII gate. */
  predicate PiiClears(env: Env, columns: seq<string>) {
    env.detectPii(columns) == {} || env.piiBackend
  }

  /** The bytes pass the structural preflight and then the PII gate. */
  predicate PassesGates(env: Env, data: Bytes) {
    env.preflight(data).Sniffed? && PiiClears(env, env.preflight(data).columns)
  }

  /** `build_ingress_ready`; the contract admits only a single-character delimiter. */
  function BuildEnvelope(e: Event, trace: Uuid, bronzeRef: Uuid, receivedAt: Instant, delimiter: string):
    (r: Result<Envelope, Failure>)
  {
    if |delimiter| != 1 || e.source == "" || e.gcsUri == "" then Err(EnvelopeInvalid)
    else Ok(Envelope(trace, e.tenant, e.store, e.source, e.template, bronzeRef, e.gcsUri, receivedAt,
                     delimiter, e.tenantCode, e.storeCode))
  }

  function BronzeRow(a: Attempt, data: Bytes, sha: string, rowCount: Option<nat>, at: Instant, status: Status): Row {
    var e := a.event;
    Row(a.newId, e.tenant, e.store, e.source, CSV_CHANNEL, e.trace, e.gcsUri, |data|, Some(sha), rowCount,
        Some(e.session), Some(e.template), at, None, status)
  }

  /** Publish, then record the publish. The flag says whether both calls returned. */
  function PublishAndMark(s: State, a: Attempt, e: Envelope): (State, bool) {
    if a.publish.FailsBefore? then (s, false)
    else
      var s1 := s.(topic := s.topic + [e]);
      if a.publish.FailsAfter? then (s1, false)
      else
        var s2 := s1.(clock := s1.clock + a.beforeMark);
        if a.mark.FailsBefore? then (s2, false)
        else (s2.(rows := MarkPublished(s2.rows, a.event.tenant, e.bronzeRef, s2.clock)), a.mark.Completes?)
  }

  /** Build, publish and mark for the row `id`. */
  function Announce(s: State, a: Attempt, trace: Uuid, id: Uuid, receivedAt: Instant, delimiter: string, d: Disposition):
    (State, Outcome)
  {
    match BuildEnvelope(a.event, trace, id, receivedAt, delimiter)
    case Err(f) => (s, Raised(f))
    case Ok(e) =>
      var (s', ok) := PublishAndMark(s, a, e);
      (s', if ok then Done(d, trace, id) else Raised(IoFailure))
  }

  /** `_handle_duplicate`. */
  function HandleDuplicate(env: Env, s: State, a: Attempt, prior: Row, data: Bytes): (State, Outcome) {
    if Concluded(prior) then (s, Done(DuplicateNoop, prior.trace, prior.id))
    else
      match env.preflight(data)
      case Rejected(_) => (s, Raised(PreflightFailure))
      case Sniffed(_, _, delimiter) =>
        Announce(s, a, prior.trace, prior.id, prior.receivedAt, delimiter, DuplicateResumed)
  }

  /** `_handle_preflight_failure`. */
  function HandlePreflightFailure(s: State, a: Attempt, data: Bytes, sha: string): (State, Outcome) {
    var at := s.clock + a.beforeInsert;
    var (rows, ok) := InsertRow(s.rows, BronzeRow(a, data, sha, None, at, FAILED), a.insert);
    (s.(rows := rows, clock := at),
     if ok then Done(PreflightFailed, a.event.trace, a.newId) else Raised(IoFailure))
  }

  /** Stages 5 to 7: the PII gate, the bronze write, then publish and mark. */
  function IngestFresh(env: Env, s: State, a: Attempt, data: Bytes, sha: string, sniff: Sniff): (State, Outcome)
    requires sniff.Sniffed?
  {
    if !PiiClears(env, sniff.columns) then (s, Raised(PiiBlocked))
    else
      var at := s.clock + a.beforeInsert;
      var (rows, ok) := InsertRow(s.rows, BronzeRow(a, data, sha, Some(sniff.rowCount), at, RECEIVED), a.insert);
      var s1 := s.(rows := rows, clock := at);
      if !ok then (s1, Raised(IoFailure))
      else Announce(s1, a, a.event.trace, a.newId, at, sniff.delimiter, Ingested)
  }

  function KeyFor(env: Env, e: Event, data: Bytes): Key {
    Key(e.tenant, e.session, env.sha256(data))
  }

  /** Stages 3 to 7 once the lookup has returned: duplicate, rejected bytes, or a fresh ingest. */
  function AfterLookup(env: Env, s: State, a: Attempt, data: Bytes): (State, Outcome) {
    var key := KeyFor(env, a.event, data);
    match FindPrior(s.rows, key, s.clock - WINDOW)
    case Some(prior) => HandleDuplicate(env, s, a, prior, data)
    case None =>
      if env.preflight(data).Rejected? then HandlePreflightFailure(s, a, data, key.sha)
      else IngestFresh(env, s, a, data, key.sha, env.preflight(data))
  }

  /** The attempt gets as far as querying the table. */
  predicate ReachesLookup(env: Env, a: Attempt) {
    && CrossCheck(env, a.event).Ok?
    && a.download.Some?
    && !Blank(a.event.session) && !Blank(env.sha256(a.download.value))
  }

  /** `IngestPipeline.process`: the whole attempt, from the cross-check to the mark. */
  function Process(env: Env, s: State, a: Attempt): (State, Outcome) {
    match CrossCheck(env, a.event)
    case Err(f) => (s, Raised(f))
    case Ok(_) =>
      if a.download.None? then (s, Raised(IoFailure))
      else if Blank(a.event.session) || Blank(env.sha256(a.download.value)) then (s, Raised(ContractFailure))
      else
        var s1 := s.(clock := s.clock + a.beforeLookup);
        if !a.lookupOk then (s1, Raised(IoFailure))
        else AfterLookup(env, s1, a, a.download.value)
  }

  /** The attempt either stops without touching table or topic, or is what follows its lookup. */
  lemma ProcessStages(env: Env, s: State, a: Attempt)
    ensures
      var s1 := s.(clock := s.clock + a.beforeLookup);
      var (s', o) := Process(env, s, a);
      if ReachesLookup(env, a) && a.lookupOk then (s', o) == AfterLookup(env, s1, a, a.download.value)
      else (s' == s || s' == s1) && o.Raised?
           && (o.failure == StorageFailure || o.failure == PathMismatch || o.failure == ContractFailure || o.failure == IoFailure)
  {
    hide CrossCheck, AfterLookup, Blank;
    var check := CrossCheck(env, a.event);
    if check.Ok? && a.download.Some? {
      var blank := Blank(a.event.session) || Blank(env.sha256(a.download.value));
      if !blank && a.lookupOk {
        var s1 := s.(clock := s.clock + a.beforeLookup);
        assert Process(env, s, a) == AfterLookup(env, s1, a, a.download.value);
      }
    }
  }

  datatype Decision = Ack | Nack

  /** The exceptions the subscriber acknowledges because a redelivery would fail the same way. */
  predicate Terminal(f: Failure) {
    f.ContractFailure? || f.PathMismatch? || f.PiiBlocked?
  }

  function Decide(o: Outcome): Decision {
    if o.Done? || Terminal(o.failure) then Ack else Nack
  }

  /** A message with the attempt its processing would be (the attempt's event is the message's). */
  datatype Delivery = Delivery(ackId: string, body: Body, attempt: Attempt)

  /** `process_message`; the decision is `None` where an exception leaves it. */
  function ProcessMessage(env: Env, s: State, d: Delivery): (State, Option<Decision>) {
    match Read(d.body)
    case Malformed => (s, Some(Ack))
    case Escapes => (s, None)
    case Parsed(e) =>
      var (s', o) := Process(env, s, d.attempt.(event := e));
      (s', Some(Decide(o)))
  }

  // ---------------------------------------------------------------- runs

  function Exec(env: Env, s: State, run: seq<Attempt>): State {
    if run == [] then s
    else Process(env, Exec(env, s, run[..|run| - 1]), run[|run| - 1]).0
  }

  predicate DistinctIds(rows: seq<Row>) {
    forall i, j :: 0 <= i < j < |rows| ==> rows[i].id != rows[j].id
  }

  /** A state the worker may start from: no message published yet and no row with a dedup key. */
  predicate Initial(s: State) {
    && s.topic == []
    && DistinctIds(s.rows)
    && forall r :: r in s.rows ==> !Keyed(r)
  }

  /** A hex digest is never blank. */
  ghost predicate HashNeverBlank(env: Env) {
    forall data :: !Blank(env.sha256(data))
  }

  /** Nothing but ASCII whitespace (`not data.strip()`). */
  predicate BlankBytes(data: Bytes) {
    forall i :: 0 <= i < |data| ==> data[i] == 32 || 9 <= data[i] <= 13
  }

  /** What the preflight's own checks leave of a sniff: bytes that are not blank, a column and a data row. */
  ghost predicate PreflightLaws(env: Env) {
    forall data :: env.preflight(data).Sniffed? ==>
      !BlankBytes(data) && env.preflight(data).columns != [] && env.preflight(data).rowCount >= 1
  }

  /** What the worker relies on the sniffer for, without a check: a delimiter of one character. */
  ghost predicate SingleCharacterSniffs(env: Env) {
    forall data :: env.preflight(data).Sniffed? ==> |env.preflight(data).delimiter| == 1
  }

  /** SHA-256 is treated as collision-free. */
  ghost predicate CollisionFree(env: Env) {
    forall x, y :: env.sha256(x) == env.sha256(y) ==> x == y
  }
}
