/** What each kind of delivery leaves behind, field by field and fault by fault. */
module IngestOutcomes {
  import opened Wrappers
  import opened Text
  import opened Uuids
  import opened ObjectPath
  import opened Ingest
  import opened IngestInvariant
  import opened IngestTheorems
  import opened IngestConvergence

  /** The delivery gets an answer from the dedup lookup. */
  predicate Answered(env: Env, a: Attempt) {
    && CrossCheck(env, a.event).Ok? && a.download.Some? && a.lookupOk
    && !Blank(a.event.session) && !Blank(env.sha256(a.download.value))
  }

  /** The row is of the delivery's tenant, upload session and content, and was received in the 24 hours before
      the lookup. */
  predicate Repeats(env: Env, s: State, a: Attempt, r: Row)
    requires a.download.Some?
  {
    && r.channel == "csv_upload" && r.tenant == a.event.tenant
    && r.session == Some(a.event.session) && r.sha == Some(env.sha256(a.download.value))
    && r.receivedAt >= s.clock + a.beforeLookup - 86_400_000_000
  }

  predicate Unseen(env: Env, s: State, a: Attempt)
    requires a.download.Some?
  {
    forall r :: r in s.rows ==> !Repeats(env, s, a, r)
  }

  /** The row of a delivery, received when it is inserted. */
  function RowFor(env: Env, s: State, a: Attempt, count: Option<nat>, status: Status): Row
    requires a.download.Some?
  {
    Row(a.newId, a.event.tenant, a.event.store, a.event.source, "csv_upload", a.event.trace, a.event.gcsUri,
        |a.download.value|, Some(env.sha256(a.download.value)), count, Some(a.event.session), Some(a.event.template),
        s.clock + a.beforeLookup + a.beforeInsert, None, status)
  }

  /** The message of a delivery about row `r`. */
  function MessageFor(a: Attempt, r: Row, delimiter: string): Envelope {
    Envelope(r.trace, a.event.tenant, a.event.store, a.event.source, a.event.template, r.id, a.event.gcsUri,
             r.receivedAt, delimiter, a.event.tenantCode, a.event.storeCode)
  }

  function Published(r: Row, at: Instant): Row {
    r.(publishedAt := Some(at), status := PUBLISHED)
  }

  /** The insert reaches the table, whether or not the call then returns. */
  predicate Lands(s: State, a: Attempt) {
    !a.insert.FailsBefore? && forall r :: r in s.rows ==> r.id != a.newId
  }

  // ---------------------------------------------------------------- content not seen before

  lemma UnseenMeans(env: Env, s: State, a: Attempt)
    requires Answered(env, a) && Unseen(env, s, a)
    ensures
      var s1 := s.(clock := s.clock + a.beforeLookup);
      var data := a.download.value;
      Process(env, s, a) == if env.preflight(data).Rejected?
        then HandlePreflightFailure(s1, a, data, env.sha256(data))
        else IngestFresh(env, s1, a, data, env.sha256(data), env.preflight(data))
  {
    hide HandlePreflightFailure, IngestFresh, CrossCheck, Blank, FindPrior;
    ProcessStages(env, s, a);
    var s1 := s.(clock := s.clock + a.beforeLookup);
    var prior := FindPrior(s1.rows, KeyFor(env, a.event, a.download.value), s1.clock - WINDOW);
    assert prior.Some? ==> Repeats(env, s, a, prior.value);
  }

  lemma LandsMeans(s: State, a: Attempt)
    ensures Lands(s, a) <==> !a.insert.FailsBefore? && !IdTaken(s.rows, a.newId)
  {
    if IdTaken(s.rows, a.newId) {
      var i :| 0 <= i < |s.rows| && s.rows[i].id == a.newId;
      assert s.rows[i] in s.rows;
    }
    if r :| r in s.rows && r.id == a.newId {
      var i :| 0 <= i < |s.rows| && s.rows[i] == r;
    }
  }

  /** Rejected bytes leave one FAILED row and no message. */
  lemma RejectedDelivery(env: Env, s: State, a: Attempt)
    requires Answered(env, a) && Unseen(env, s, a) && env.preflight(a.download.value).Rejected?
    ensures
      var (s', o) := Process(env, s, a);
      && s'.topic == s.topic
      && s'.rows == (if Lands(s, a) then s.rows + [RowFor(env, s, a, None, FAILED)] else s.rows)
      && o == (if Lands(s, a) && a.insert.Completes? then Done(PreflightFailed, a.event.trace, a.newId) else Raised(IoFailure))
  {
    hide Process, CrossCheck, Blank, IdTaken, Lands, Unseen;
    UnseenMeans(env, s, a);
    LandsMeans(s, a);
  }

  /** A header with PII and no backend for it stops the delivery before anything is written. */
  lemma PiiDelivery(env: Env, s: State, a: Attempt)
    requires Answered(env, a) && Unseen(env, s, a) && env.preflight(a.download.value).Sniffed?
    requires env.detectPii(env.preflight(a.download.value).columns) != {} && !env.piiBackend
    ensures
      var (s', o) := Process(env, s, a);
      o == Raised(PiiBlocked) && s'.rows == s.rows && s'.topic == s.topic
  {
    hide Process, CrossCheck, Blank, Unseen;
    UnseenMeans(env, s, a);
  }

  /** A header without PII, or with a backend for it, is stored; what follows depends on the faults. */
  lemma CleanDelivery(env: Env, s: State, a: Attempt)
    requires Answered(env, a) && Unseen(env, s, a) && env.preflight(a.download.value).Sniffed? && DistinctIds(s.rows)
    requires env.detectPii(env.preflight(a.download.value).columns) == {} || env.piiBackend
    requires a.event.source != "" && a.event.gcsUri != ""
    ensures
      var (s', o) := Process(env, s, a);
      var sniff := env.preflight(a.download.value);
      var row := RowFor(env, s, a, Some(sniff.rowCount), RECEIVED);
      var at := s.clock + a.beforeLookup + a.beforeInsert + a.beforeMark;
      if !Lands(s, a) then s'.rows == s.rows && s'.topic == s.topic && o == Raised(IoFailure)
      else if !a.insert.Completes? then s'.rows == s.rows + [row] && s'.topic == s.topic && o == Raised(IoFailure)
      else if |sniff.delimiter| != 1 then s'.rows == s.rows + [row] && s'.topic == s.topic && o == Raised(EnvelopeInvalid)
      else if a.publish.FailsBefore? then s'.rows == s.rows + [row] && s'.topic == s.topic && o == Raised(IoFailure)
      else
        && s'.topic == s.topic + [MessageFor(a, row, sniff.delimiter)]
        && s'.rows == s.rows + [if a.publish.FailsAfter? || a.mark.FailsBefore? then row else Published(row, at)]
        && o == (if a.publish.Completes? && a.mark.Completes? then Done(Ingested, a.event.trace, a.newId) else Raised(IoFailure))
  {
    hide Process, CrossCheck, Blank, Unseen, Lands, IngestFresh;
    UnseenMeans(env, s, a);
    StoredOutcome(env, s, a);
    var sniff := env.preflight(a.download.value);
    var row := RowFor(env, s, a, Some(sniff.rowCount), RECEIVED);
    if Lands(s, a) && a.insert.Completes? {
      AppendedOutcome(s, a, row, sniff.delimiter);
    }
  }

  /** The row is stored, and then announced if the insert returned. */
  lemma StoredOutcome(env: Env, s: State, a: Attempt)
    requires a.download.Some? && env.preflight(a.download.value).Sniffed?
    requires env.detectPii(env.preflight(a.download.value).columns) == {} || env.piiBackend
    ensures
      var data, s1 := a.download.value, s.(clock := s.clock + a.beforeLookup);
      var sniff := env.preflight(data);
      var row := RowFor(env, s, a, Some(sniff.rowCount), RECEIVED);
      var out := IngestFresh(env, s1, a, data, env.sha256(data), sniff);
      if !Lands(s, a) then out == (s.(clock := row.receivedAt), Raised(IoFailure))
      else if !a.insert.Completes? then out == (s.(rows := s.rows + [row], clock := row.receivedAt), Raised(IoFailure))
      else out == Announce(s.(rows := s.rows + [row], clock := row.receivedAt), a, row.trace, row.id, row.receivedAt, sniff.delimiter, Ingested)
  {
    hide Lands, Announce, IdTaken;
    LandsMeans(s, a);
  }

  lemma AppendedOutcome(s: State, a: Attempt, row: Row, delimiter: string)
    requires DistinctIds(s.rows) && Lands(s, a) && row.id == a.newId && row.tenant == a.event.tenant
    requires a.event.source != "" && a.event.gcsUri != ""
    ensures
      var s1 := s.(rows := s.rows + [row], clock := row.receivedAt);
      var (s', o) := Announce(s1, a, row.trace, row.id, row.receivedAt, delimiter, Ingested);
      if |delimiter| != 1 then s' == s1 && o == Raised(EnvelopeInvalid)
      else if a.publish.FailsBefore? then s' == s1 && o == Raised(IoFailure)
      else
        && s'.topic == s.topic + [MessageFor(a, row, delimiter)]
        && s'.rows == s.rows + [if a.publish.FailsAfter? || a.mark.FailsBefore? then row else Published(row, row.receivedAt + a.beforeMark)]
        && o == (if a.publish.Completes? && a.mark.Completes? then Done(Ingested, row.trace, row.id) else Raised(IoFailure))
  {
    hide Announce;
    var s1 := s.(rows := s.rows + [row], clock := row.receivedAt);
    assert s1.rows[|s.rows|] == row;
    AnnounceOutcome(s1, a, |s.rows|, delimiter, Ingested);
    assert s1.rows[|s.rows| := Published(row, row.receivedAt + a.beforeMark)] == s.rows + [Published(row, row.receivedAt + a.beforeMark)];
  }

  lemma AnnounceOutcome(s: State, a: Attempt, k: nat, delimiter: string, d: Disposition)
    requires DistinctIds(s.rows) && k < |s.rows| && s.rows[k].tenant == a.event.tenant
    requires a.event.source != "" && a.event.gcsUri != ""
    ensures
      var r := s.rows[k];
      var (s', o) := Announce(s, a, r.trace, r.id, r.receivedAt, delimiter, d);
      if |delimiter| != 1 then s' == s && o == Raised(EnvelopeInvalid)
      else if a.publish.FailsBefore? then s' == s && o == Raised(IoFailure)
      else
        && s'.topic == s.topic + [MessageFor(a, r, delimiter)]
        && s'.rows == (if a.publish.FailsAfter? || a.mark.FailsBefore? then s.rows
                       else s.rows[k := Published(r, s.clock + a.beforeMark)])
        && o == (if a.publish.Completes? && a.mark.Completes? then Done(d, r.trace, r.id) else Raised(IoFailure))
  {
    MarkTouchesOne(s.rows, k, s.clock + a.beforeMark);
  }

  // ---------------------------------------------------------------- content seen before

  /** The lookup finds the row that repeats, and the delivery is handled as its duplicate. */
  lemma RepeatMeans(env: Env, s: State, a: Attempt, r: Row)
    requires CollisionFree(env) && Inv(env, s) && Answered(env, a) && r in s.rows && Repeats(env, s, a, r)
    ensures Process(env, s, a) == HandleDuplicate(env, s.(clock := s.clock + a.beforeLookup), a, r, a.download.value)
  {
    hide HandleDuplicate, CrossCheck, Blank, FindPrior, Inv;
    var s1 := s.(clock := s.clock + a.beforeLookup);
    TickKeeps(env, s, s1);
    ProcessStages(env, s, a);
    LookupIsUnambiguous(env, s1, r, KeyFor(env, a.event, a.download.value), s1.clock);
  }

  /** A row that failed or is published absorbs the delivery. */
  lemma SettledRepeat(env: Env, s: State, a: Attempt, r: Row)
    requires CollisionFree(env) && Inv(env, s) && Answered(env, a) && r in s.rows && Repeats(env, s, a, r)
    requires r.status == FAILED || r.status == PUBLISHED || r.publishedAt.Some?
    ensures
      var (s', o) := Process(env, s, a);
      o == Done(DuplicateNoop, r.trace, r.id) && s'.rows == s.rows && s'.topic == s.topic
  {
    hide Process, CrossCheck, Blank, Inv, Announce;
    RepeatMeans(env, s, a, r);
  }

  /** A row still RECEIVED is announced again, under its own trace, id and receive time, and marked. */
  lemma ResumedRepeat(env: Env, s: State, a: Attempt, k: nat)
    requires CollisionFree(env) && Inv(env, s) && Answered(env, a)
    requires k < |s.rows| && Repeats(env, s, a, s.rows[k]) && s.rows[k].status == RECEIVED
    requires a.event.source != "" && a.event.gcsUri != ""
    ensures env.preflight(a.download.value).Sniffed?
    ensures
      var (s', o) := Process(env, s, a);
      var r, delimiter := s.rows[k], env.preflight(a.download.value).delimiter;
      var at := s.clock + a.beforeLookup + a.beforeMark;
      if |delimiter| != 1 then s'.rows == s.rows && s'.topic == s.topic && o == Raised(EnvelopeInvalid)
      else if a.publish.FailsBefore? then s'.rows == s.rows && s'.topic == s.topic && o == Raised(IoFailure)
      else
        && s'.topic == s.topic + [MessageFor(a, r, delimiter)]
        && s'.rows == (if a.publish.FailsAfter? || a.mark.FailsBefore? then s.rows else s.rows[k := Published(r, at)])
        && o == (if a.publish.Completes? && a.mark.Completes? then Done(DuplicateResumed, r.trace, r.id) else Raised(IoFailure))
  {
    hide Process, CrossCheck, Blank, Announce, Inv;
    var r, s1 := s.rows[k], s.(clock := s.clock + a.beforeLookup);
    RepeatMeans(env, s, a, r);
    PriorBytes(env, s, a.download.value, k);
    InvDistinct(env, s);
    ReceivedIsUnpublished(env, s, k);
    AnnounceOutcome(s1, a, k, env.preflight(a.download.value).delimiter, DuplicateResumed);
  }

  lemma ReceivedIsUnpublished(env: Env, s: State, k: nat)
    requires Inv(env, s) && k < |s.rows| && Keyed(s.rows[k]) && s.rows[k].status == RECEIVED
    ensures s.rows[k].publishedAt.None?
  {
    assert RowOk(env, s.rows[k], s.clock);
  }

  // ---------------------------------------------------------------- deliveries that do not get that far

  /** A blank key component is a contract failure: nothing is written, and the message is acknowledged. */
  lemma BlankKeyIsTerminal(env: Env, s: State, d: Delivery)
    requires Read(d.body).Parsed? && d.attempt.download.Some?
    requires CrossCheck(env, Read(d.body).event).Ok? && Blank(env.sha256(d.attempt.download.value))
    ensures ProcessMessage(env, s, d) == (s, Some(Ack))
  {
    hide CrossCheck, Blank, Read, AfterLookup;
  }

  /** A failed download or lookup changes neither table nor topic, and the message is refused. */
  lemma UnansweredIsRefused(env: Env, s: State, d: Delivery)
    requires Read(d.body).Parsed? && CrossCheck(env, Read(d.body).event).Ok? && HashNeverBlank(env)
    requires d.attempt.download.None? || !d.attempt.lookupOk
    ensures
      var (s', decision) := ProcessMessage(env, s, d);
      decision == Some(Nack) && s'.rows == s.rows && s'.topic == s.topic
  {
    hide CrossCheck, Blank, Read, AfterLookup, ValidEvent;
    ValidSessionIsNotBlank(Read(d.body).event);
  }
}
