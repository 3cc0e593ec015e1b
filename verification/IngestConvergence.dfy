/** Publish accounting, convergence under redelivery, and what an acknowledgement guarantees. */
module IngestConvergence {
  import opened Wrappers
  import opened Text
  import opened Uuids
  import opened ObjectPath
  import opened Ingest
  import opened IngestInvariant
  import opened IngestTheorems

  // ---------------------------------------------------------------- publish conservation

  /** How many messages on the topic name the row `id`. */
  function Publishes(topic: seq<Envelope>, id: Uuid): nat {
    if topic == [] then 0
    else Publishes(topic[..|topic| - 1], id) + (if topic[|topic| - 1].bronzeRef == id then 1 else 0)
  }

  /** The table records the publish of row `id`. */
  predicate Marked(rows: seq<Row>, id: Uuid) {
    exists i :: 0 <= i < |rows| && rows[i].id == id && IsPublished(rows[i])
  }

  /** The attempt published row `id`. */
  predicate Published(env: Env, s: State, a: Attempt, id: Uuid) {
    var s' := Process(env, s, a).0;
    |s'.topic| > |s.topic| && s'.topic[|s'.topic| - 1].bronzeRef == id
  }

  /** The attempt published row `id`, and then a fault came before the mark committed: in the publish
      call after the message was taken, or in the mark before it took effect. */
  predicate LostMark(env: Env, s: State, a: Attempt, id: Uuid) {
    Published(env, s, a, id) && (a.publish.FailsAfter? || a.mark.FailsBefore?)
  }

  /** The attempts of a run that failed after publishing `id` but before its mark committed. */
  function LostMarks(env: Env, s0: State, run: seq<Attempt>, id: Uuid): nat {
    if run == [] then 0
    else
      var front, a := run[..|run| - 1], run[|run| - 1];
      LostMarks(env, s0, front, id) + (if LostMark(env, Exec(env, s0, front), a, id) then 1 else 0)
  }

  /** Told from the table alone: the row was published and is not marked. */
  lemma LostMarkLeavesUnmarked(env: Env, s: State, a: Attempt, id: Uuid)
    requires DistinctIds(s.rows)
    ensures LostMark(env, s, a, id) <==> Published(env, s, a, id) && !Marked(Process(env, s, a).0.rows, id)
  {
    hide Process;
    var x := ProcessDid(env, s, a);
    GrewKeepsMarks(env, a, s.rows, x.base, id);
    if x.announced.Some? {
      var k := x.announced.value;
      UnpublishedRowIsUnmarked(x.base, k);
      MarkedAfterStamp(x.base, k, Process(env, s, a).0.clock, id);
    }
  }

  lemma PublishesAppend(topic: seq<Envelope>, e: Envelope, id: Uuid)
    ensures Publishes(topic + [e], id) == Publishes(topic, id) + (if e.bronzeRef == id then 1 else 0)
  {
    assert (topic + [e])[..|topic|] == topic;
  }

  lemma MarkedAfterStamp(rows: seq<Row>, k: nat, at: Instant, id: Uuid)
    requires k < |rows|
    ensures Marked(rows[k := Stamped(rows[k], at)], id) <==> Marked(rows, id) || rows[k].id == id
  {
    var out := rows[k := Stamped(rows[k], at)];
    if Marked(rows, id) {
      var i :| 0 <= i < |rows| && rows[i].id == id && IsPublished(rows[i]);
      assert out[i].id == id && IsPublished(out[i]);
    }
    if rows[k].id == id {
      assert out[k].id == id && IsPublished(out[k]);
    }
    if Marked(out, id) && rows[k].id != id {
      var i :| 0 <= i < |out| && out[i].id == id && IsPublished(out[i]);
      assert rows[i].id == id && IsPublished(rows[i]);
    }
  }

  lemma MarkedAfterInsert(rows: seq<Row>, row: Row, id: Uuid)
    requires !IsPublished(row)
    ensures Marked(rows + [row], id) <==> Marked(rows, id)
  {
    var out := rows + [row];
    if Marked(rows, id) {
      var i :| 0 <= i < |rows| && rows[i].id == id && IsPublished(rows[i]);
      assert out[i].id == id && IsPublished(out[i]);
    }
    if Marked(out, id) {
      var i :| 0 <= i < |out| && out[i].id == id && IsPublished(out[i]);
      assert rows[i].id == id && IsPublished(rows[i]);
    }
  }

  lemma GrewKeepsMarks(env: Env, a: Attempt, rows: seq<Row>, base: seq<Row>, id: Uuid)
    requires Grew(env, a, rows, base) && DistinctIds(rows)
    ensures Marked(base, id) <==> Marked(rows, id)
    ensures DistinctIds(base)
  {
    if base != rows {
      MarkedAfterInsert(rows, base[|rows|], id);
    }
  }

  lemma UnpublishedRowIsUnmarked(rows: seq<Row>, k: nat)
    requires DistinctIds(rows) && k < |rows| && !IsPublished(rows[k])
    ensures !Marked(rows, rows[k].id)
  {
  }

  /** One attempt balances: new publishes of `id` are lost marks plus newly recorded marks. */
  lemma AttemptBalances(env: Env, s: State, a: Attempt, id: Uuid)
    requires DistinctIds(s.rows)
    ensures
      var s' := Process(env, s, a).0;
      Publishes(s'.topic, id) + (if Marked(s.rows, id) then 1 else 0)
      == Publishes(s.topic, id) + (if LostMark(env, s, a, id) then 1 else 0) + (if Marked(s'.rows, id) then 1 else 0)
  {
    hide Process;
    var x := ProcessDid(env, s, a);
    var s' := Process(env, s, a).0;
    GrewKeepsMarks(env, a, s.rows, x.base, id);
    if x.announced.Some? {
      var k := x.announced.value;
      PublishesAppend(s.topic, s'.topic[|s.topic|], id);
      UnpublishedRowIsUnmarked(x.base, k);
      MarkedAfterStamp(x.base, k, s'.clock, id);
    }
  }

  /** Conservation: in every run, for every row the run created, the messages naming it are the
      attempts that lost its mark, plus one exactly when the mark is recorded. */
  lemma {:induction false} PublishConservation(env: Env, s0: State, run: seq<Attempt>, id: Uuid)
    requires CollisionFree(env) && Initial(s0) && !IdTaken(s0.rows, id)
    ensures
      var s := Exec(env, s0, run);
      Publishes(s.topic, id) == LostMarks(env, s0, run, id) + (if Marked(s.rows, id) then 1 else 0)
  {
    hide Process, Inv;
    if run != [] {
      var front := run[..|run| - 1];
      PublishConservation(env, s0, front, id);
      ReachableInv(env, s0, front);
      InvDistinct(env, Exec(env, s0, front));
      AttemptBalances(env, Exec(env, s0, front), run[|run| - 1], id);
    }
  }

  // ---------------------------------------------------------------- convergence

  /** Every I/O call of the attempt returns, and the minted id is new. */
  predicate FaultFree(s: State, a: Attempt) {
    && a.download.Some? && a.lookupOk && !IdTaken(s.rows, a.newId)
    && a.insert.Completes? && a.publish.Completes? && a.mark.Completes?
  }

  /** Preflight accepts the bytes and names a delimiter the envelope contract admits. */
  predicate OneCharDelimiter(env: Env, data: Bytes) {
    env.preflight(data).Sniffed? && |env.preflight(data).delimiter| == 1
  }

  /** What can be checked before the delivery: either a row of the key is in the window, and it is
      concluded or its bytes have a one-character delimiter; or there is none, and the bytes are
      refused by preflight, or clear both gates with a one-character delimiter. */
  predicate CanSettle(env: Env, rows: seq<Row>, key: Key, cutoff: Instant, data: Bytes) {
    match FindPrior(rows, key, cutoff)
    case Some(r) => Concluded(r) || OneCharDelimiter(env, data)
    case None => env.preflight(data).Rejected? || (PassesGates(env, data) && OneCharDelimiter(env, data))
  }

  /** Row `r` concludes the key, as the outcome `o` reports it. */
  predicate Reports(o: Outcome, r: Row, key: Key, cutoff: Instant) {
    o.Done? && InWindow(r, key, cutoff) && Concluded(r) && o.bronzeId == r.id && o.trace == r.trace
  }

  lemma AnnounceSettles(env: Env, s: State, a: Attempt, k: nat, delimiter: string, d: Disposition)
    requires DistinctIds(s.rows) && k < |s.rows| && a.event.tenant == s.rows[k].tenant
    requires a.publish.Completes? && a.mark.Completes? && ValidEvent(a.event)
    ensures
      var r := s.rows[k];
      var (s', o) := Announce(s, a, r.trace, r.id, r.receivedAt, delimiter, d);
      if |delimiter| == 1 then
        && o == Done(d, r.trace, r.id)
        && s'.rows == s.rows[k := Stamped(r, s.clock + a.beforeMark)]
      else
        o == Raised(EnvelopeInvalid)
  {
    MarkTouchesOne(s.rows, k, s.clock + a.beforeMark);
  }

  lemma DuplicateSettles(env: Env, s: State, a: Attempt, prior: Row, data: Bytes, cutoff: Instant)
    requires CollisionFree(env) && Inv(env, s) && ValidEvent(a.event)
    requires a.publish.Completes? && a.mark.Completes?
    requires prior in s.rows && InWindow(prior, KeyFor(env, a.event, data), cutoff)
    ensures
      var (s', o) := HandleDuplicate(env, s, a, prior, data);
      && (o.Done? <==> Concluded(prior) || OneCharDelimiter(env, data))
      && (o.Done? ==> exists r :: r in s'.rows && Reports(o, r, KeyFor(env, a.event, data), cutoff))
  {
    var (s', o) := HandleDuplicate(env, s, a, prior, data);
    if Concluded(prior) {
      assert prior in s'.rows && Reports(o, prior, KeyFor(env, a.event, data), cutoff);
    } else {
      var k :| 0 <= k < |s.rows| && s.rows[k] == prior;
      PriorBytes(env, s, data, k);
      AnnounceSettles(env, s, a, k, env.preflight(data).delimiter, DuplicateResumed);
      if OneCharDelimiter(env, data) {
        assert s'.rows[k] in s'.rows;
        assert Reports(o, s'.rows[k], KeyFor(env, a.event, data), cutoff);
      }
    }
  }

  lemma FreshSettles(env: Env, s: State, a: Attempt, data: Bytes, cutoff: Instant)
    requires DistinctIds(s.rows) && ValidEvent(a.event) && FaultFree(s, a) && cutoff <= s.clock
    requires env.preflight(data).Sniffed?
    ensures
      var (s', o) := IngestFresh(env, s, a, data, env.sha256(data), env.preflight(data));
      && (o.Done? <==> PassesGates(env, data) && OneCharDelimiter(env, data))
      && (o.Done? ==> exists r :: r in s'.rows && Reports(o, r, KeyFor(env, a.event, data), cutoff))
  {
    var sniff := env.preflight(data);
    var (s', o) := IngestFresh(env, s, a, data, env.sha256(data), sniff);
    if PiiClears(env, sniff.columns) {
      var at := s.clock + a.beforeInsert;
      var row := BronzeRow(a, data, env.sha256(data), Some(sniff.rowCount), at, RECEIVED);
      var s1 := s.(rows := s.rows + [row], clock := at);
      assert s1.rows[|s.rows|] == row;
      AnnounceSettles(env, s1, a, |s.rows|, sniff.delimiter, Ingested);
      if OneCharDelimiter(env, data) {
        assert s'.rows[|s.rows|] in s'.rows;
        assert Reports(o, s'.rows[|s.rows|], KeyFor(env, a.event, data), cutoff);
      }
    }
  }

  lemma RejectedSettles(env: Env, s: State, a: Attempt, data: Bytes, cutoff: Instant)
    requires FaultFree(s, a) && cutoff <= s.clock
    ensures
      var (s', o) := HandlePreflightFailure(s, a, data, env.sha256(data));
      o.Done? && exists r :: r in s'.rows && Reports(o, r, KeyFor(env, a.event, data), cutoff)
  {
    var (s', o) := HandlePreflightFailure(s, a, data, env.sha256(data));
    assert s'.rows[|s.rows|] in s'.rows;
    assert Reports(o, s'.rows[|s.rows|], KeyFor(env, a.event, data), cutoff);
  }

  lemma LookupSettles(env: Env, s: State, a: Attempt, data: Bytes)
    requires CollisionFree(env) && Inv(env, s) && ValidEvent(a.event) && FaultFree(s, a)
    ensures
      var key := KeyFor(env, a.event, data);
      var (s', o) := AfterLookup(env, s, a, data);
      && (o.Done? <==> CanSettle(env, s.rows, key, s.clock - WINDOW, data))
      && (o.Done? ==> exists r :: r in s'.rows && Reports(o, r, key, s.clock - WINDOW))
  {
    hide Reports, HandleDuplicate, HandlePreflightFailure, IngestFresh, Concluded, Inv, CollisionFree;
    hide DistinctIds, PassesGates, OneCharDelimiter, FindPrior, ValidEvent, IdTaken;
    InvDistinct(env, s);
    var key := KeyFor(env, a.event, data);
    var prior := FindPrior(s.rows, key, s.clock - WINDOW);
    if prior.Some? {
      DuplicateSettles(env, s, a, prior.value, data, s.clock - WINDOW);
    } else if env.preflight(data).Rejected? {
      RejectedSettles(env, s, a, data, s.clock - WINDOW);
    } else {
      FreshSettles(env, s, a, data, s.clock - WINDOW);
    }
  }

  /** From every state with the invariant, one delivery in which no I/O fails concludes its key
      exactly when `CanSettle` holds for it: the outcome then names a FAILED or published row. */
  lemma FaultFreeDeliverySettles(env: Env, s: State, a: Attempt)
    requires CollisionFree(env) && Inv(env, s) && ValidEvent(a.event) && FaultFree(s, a)
    ensures
      var data := a.download.value;
      var key := KeyFor(env, a.event, data);
      var cutoff := s.clock + a.beforeLookup - WINDOW;
      var (s', o) := Process(env, s, a);
      && (o.Done? <==> ReachesLookup(env, a) && CanSettle(env, s.rows, key, cutoff, data))
      && (o.Done? ==> exists r :: r in s'.rows && Reports(o, r, key, cutoff))
  {
    hide Process, Inv, CanSettle, Reports, ReachesLookup;
    var s1 := s.(clock := s.clock + a.beforeLookup);
    TickKeeps(env, s, s1);
    ProcessStages(env, s, a);
    if ReachesLookup(env, a) {
      LookupSettles(env, s1, a, a.download.value);
    }
  }

  /** When the sniffer keeps to one character, as the worker relies on: a fault-free delivery concludes its key if
      and only if its path agrees with it and a row of the key is in the window, or preflight rejects the bytes,
      or they clear the PII gate. */
  lemma SingleCharacterDeliverySettles(env: Env, s: State, a: Attempt)
    requires CollisionFree(env) && HashNeverBlank(env) && SingleCharacterSniffs(env)
    requires Inv(env, s) && ValidEvent(a.event) && FaultFree(s, a)
    ensures
      var data := a.download.value;
      var prior := FindPrior(s.rows, KeyFor(env, a.event, data), s.clock + a.beforeLookup - WINDOW);
      Process(env, s, a).1.Done? <==>
      && CrossCheck(env, a.event).Ok?
      && (prior.Some? || env.preflight(data).Rejected? || PiiClears(env, env.preflight(data).columns))
  {
    hide Process, Inv, FindPrior, CrossCheck, Blank, Reports, ValidEvent, PiiClears, CollisionFree;
    var data := a.download.value;
    FaultFreeDeliverySettles(env, s, a);
    ValidSessionIsNotBlank(a.event);
    var prior := FindPrior(s.rows, KeyFor(env, a.event, data), s.clock + a.beforeLookup - WINDOW);
    if prior.Some? {
      var k :| 0 <= k < |s.rows| && s.rows[k] == prior.value;
      PriorBytes(env, s, data, k);
    }
  }

  /** Once row `r` concludes its key, a delivery of that key whose lookup falls within the window of
      `r` changes neither table nor topic; if it returns at all, it returns `r`'s trace and id. */
  lemma ConcludedKeyIsInert(env: Env, s: State, a: Attempt, r: Row)
    requires CollisionFree(env) && Inv(env, s)
    requires r in s.rows && Concluded(r) && a.download.Some?
    requires HasKey(r, KeyFor(env, a.event, a.download.value))
    requires s.clock + a.beforeLookup <= r.receivedAt + WINDOW
    ensures
      var (s', o) := Process(env, s, a);
      && s'.rows == s.rows && s'.topic == s.topic
      && (o.Done? ==> o == Done(DuplicateNoop, r.trace, r.id))
      && (ReachesLookup(env, a) && a.lookupOk ==> o.Done?)
  {
    hide Process, Inv, ReachesLookup, AfterLookup, FindPrior, HasKey, Concluded;
    var s1 := s.(clock := s.clock + a.beforeLookup);
    TickKeeps(env, s, s1);
    ProcessStages(env, s, a);
    LookupIsUnambiguous(env, s1, r, KeyFor(env, a.event, a.download.value), s1.clock);
    FoundConcluded(env, s1, a, a.download.value, r);
  }

  lemma FoundConcluded(env: Env, s: State, a: Attempt, data: Bytes, r: Row)
    requires FindPrior(s.rows, KeyFor(env, a.event, data), s.clock - WINDOW) == Some(r) && Concluded(r)
    ensures AfterLookup(env, s, a, data) == (s, Done(DuplicateNoop, r.trace, r.id))
  {
    hide FindPrior, Announce;
  }

  /** The same after any further run: other events, faults and redeliveries in between do not matter. */
  lemma ConcludedKeyStaysInert(env: Env, s: State, run: seq<Attempt>, a: Attempt, r: Row)
    requires CollisionFree(env) && Inv(env, s)
    requires r in s.rows && Concluded(r) && Keyed(r) && a.download.Some?
    requires HasKey(r, KeyFor(env, a.event, a.download.value))
    requires Exec(env, s, run).clock + a.beforeLookup <= r.receivedAt + WINDOW
    ensures
      var mid := Exec(env, s, run);
      var (s', o) := Process(env, mid, a);
      && s'.rows == mid.rows && s'.topic == mid.topic
      && (o.Done? ==> o == Done(DuplicateNoop, r.trace, r.id))
      && (ReachesLookup(env, a) && a.lookupOk ==> o.Done?)
  {
    hide Process, Inv, ReachesLookup;
    var i :| 0 <= i < |s.rows| && s.rows[i] == r;
    RowsOnlyMoveForward(env, s, run, i);
    RunKeeps(env, s, run);
    ConcludedStays(env, s, i);
    assert Exec(env, s, run).rows[i] in Exec(env, s, run).rows;
    ConcludedKeyIsInert(env, Exec(env, s, run), a, r);
  }

  /** A concluded row is never RECEIVED, so nothing follows it but itself. */
  lemma ConcludedStays(env: Env, s: State, i: nat)
    requires Inv(env, s) && i < |s.rows| && Keyed(s.rows[i]) && Concluded(s.rows[i])
    ensures s.rows[i].status != RECEIVED
  {
    assert RowOk(env, s.rows[i], s.clock);
  }

  // ---------------------------------------------------------------- acknowledgements

  lemma AnnounceDone(env: Env, s: State, a: Attempt, k: nat, delimiter: string, d: Disposition)
    requires DistinctIds(s.rows) && k < |s.rows| && a.event.tenant == s.rows[k].tenant
    ensures
      var r := s.rows[k];
      var (s', o) := Announce(s, a, r.trace, r.id, r.receivedAt, delimiter, d);
      && (o.Done? ==> o == Done(d, r.trace, r.id) && s'.rows == s.rows[k := Stamped(r, s.clock + a.beforeMark)])
      && (o.Raised? ==> o.failure == EnvelopeInvalid || o.failure == IoFailure)
  {
    MarkTouchesOne(s.rows, k, s.clock + a.beforeMark);
  }

  /** The row an outcome names, when the attempt returns. */
  predicate RowConcludes(rows: seq<Row>, o: Outcome, key: Key) {
    exists r :: r in rows && HasKey(r, key) && Concluded(r) && o.Done? && o.bronzeId == r.id && o.trace == r.trace
  }

  lemma DuplicateDone(env: Env, s: State, a: Attempt, prior: Row, data: Bytes)
    requires DistinctIds(s.rows) && prior in s.rows && HasKey(prior, KeyFor(env, a.event, data))
    ensures
      var (s', o) := HandleDuplicate(env, s, a, prior, data);
      && (o.Done? ==> RowConcludes(s'.rows, o, KeyFor(env, a.event, data)))
      && (o.Raised? ==> !Terminal(o.failure))
  {
    var (s', o) := HandleDuplicate(env, s, a, prior, data);
    if !Concluded(prior) && env.preflight(data).Sniffed? {
      var k :| 0 <= k < |s.rows| && s.rows[k] == prior;
      AnnounceDone(env, s, a, k, env.preflight(data).delimiter, DuplicateResumed);
      if o.Done? {
        assert s'.rows[k] in s'.rows;
      }
    }
  }

  lemma FreshDone(env: Env, s: State, a: Attempt, data: Bytes)
    requires DistinctIds(s.rows) && env.preflight(data).Sniffed?
    ensures
      var (s', o) := IngestFresh(env, s, a, data, env.sha256(data), env.preflight(data));
      && (o.Done? ==> RowConcludes(s'.rows, o, KeyFor(env, a.event, data)))
      && (o.Raised? && Terminal(o.failure) ==>
            o.failure == PiiBlocked && s' == s && !PiiClears(env, env.preflight(data).columns))
  {
    hide PiiClears, Announce;
    var sniff := env.preflight(data);
    var (s', o) := IngestFresh(env, s, a, data, env.sha256(data), sniff);
    var at := s.clock + a.beforeInsert;
    var row := BronzeRow(a, data, env.sha256(data), Some(sniff.rowCount), at, RECEIVED);
    var (rows, ok) := InsertRow(s.rows, row, a.insert);
    if PiiClears(env, sniff.columns) && ok {
      var s1 := s.(rows := rows, clock := at);
      assert s1.rows[|s.rows|] == row;
      AnnounceDone(env, s1, a, |s.rows|, sniff.delimiter, Ingested);
      if o.Done? {
        assert s'.rows[|s.rows|] in s'.rows;
      }
    }
  }

  lemma RejectedDone(env: Env, s: State, a: Attempt, data: Bytes)
    ensures
      var (s', o) := HandlePreflightFailure(s, a, data, env.sha256(data));
      && (o.Done? ==> RowConcludes(s'.rows, o, KeyFor(env, a.event, data)))
      && (o.Raised? ==> !Terminal(o.failure))
  {
    var (s', o) := HandlePreflightFailure(s, a, data, env.sha256(data));
    if o.Done? {
      assert s'.rows[|s.rows|] in s'.rows;
    }
  }

  lemma LookupDone(env: Env, s: State, a: Attempt, data: Bytes)
    requires DistinctIds(s.rows)
    ensures
      var (s', o) := AfterLookup(env, s, a, data);
      && (o.Done? ==> RowConcludes(s'.rows, o, KeyFor(env, a.event, data)))
      && (o.Raised? && Terminal(o.failure) ==>
            o.failure == PiiBlocked && s' == s
            && env.preflight(data).Sniffed? && !PiiClears(env, env.preflight(data).columns))
  {
    hide HandleDuplicate, HandlePreflightFailure, IngestFresh, RowConcludes, FindPrior, DistinctIds, PiiClears, Terminal;
    var prior := FindPrior(s.rows, KeyFor(env, a.event, data), s.clock - WINDOW);
    if prior.Some? {
      DuplicateDone(env, s, a, prior.value, data);
    } else if env.preflight(data).Rejected? {
      RejectedDone(env, s, a, data);
    } else {
      FreshDone(env, s, a, data);
    }
  }

  /** No acknowledgement loses data. Whatever fails, a message is acknowledged only if its envelope
      was malformed, or its path disagrees with it, or its header was stopped by
      the PII gate (and then nothing was written or published), or the table now holds a row of its
      key that is FAILED or published. */
  lemma NoAckLosesData(env: Env, s: State, d: Delivery)
    requires HashNeverBlank(env) && DistinctIds(s.rows)
    requires ProcessMessage(env, s, d).1 == Some(Ack) && Read(d.body).Parsed?
    ensures
      var a := d.attempt.(event := Read(d.body).event);
      var (s', o) := Process(env, s, a);
      || CrossCheck(env, a.event) == Err(PathMismatch)
      || (&& a.download.Some? && env.preflight(a.download.value).Sniffed?
          && !PiiClears(env, env.preflight(a.download.value).columns)
          && s'.rows == s.rows && s'.topic == s.topic)
      || (a.download.Some? && RowConcludes(s'.rows, o, KeyFor(env, a.event, a.download.value)))
  {
    hide AfterLookup, CrossCheck, Blank, RowConcludes, PiiClears, Read, ValidEvent;
    var a := d.attempt.(event := Read(d.body).event);
    ValidSessionIsNotBlank(a.event);
    var s1 := s.(clock := s.clock + a.beforeLookup);
    if CrossCheck(env, a.event).Ok? && a.download.Some? {
      var blank := Blank(a.event.session) || Blank(env.sha256(a.download.value));
      if !blank && a.lookupOk {
        assert Process(env, s, a) == AfterLookup(env, s1, a, a.download.value);
        LookupDone(env, s1, a, a.download.value);
      }
    }
  }

  lemma {:induction false} UnnamedMeansUnpublished(topic: seq<Envelope>, id: Uuid)
    requires forall e :: e in topic ==> e.bronzeRef != id
    ensures Publishes(topic, id) == 0
  {
    if topic != [] {
      var front, last := topic[..|topic| - 1], topic[|topic| - 1];
      assert last in topic && forall e :: e in front ==> e in topic;
      UnnamedMeansUnpublished(front, id);
    }
  }

  /** A row with a dedup key was not there at the start, and neither was its id. */
  lemma KeyedRowIsNew(env: Env, s0: State, run: seq<Attempt>, i: nat)
    requires CollisionFree(env) && Initial(s0)
    requires i < |Exec(env, s0, run).rows| && Keyed(Exec(env, s0, run).rows[i])
    ensures !IdTaken(s0.rows, Exec(env, s0, run).rows[i].id)
  {
    hide Exec;
    ReachableInv(env, s0, run);
    var rows := Exec(env, s0, run).rows;
    forall j | 0 <= j < |s0.rows| ensures s0.rows[j].id != rows[i].id {
      OldRowsKept(env, s0, run, j);
      assert s0.rows[j] in s0.rows;
    }
  }

  /** In every run, a row that is marked has a message on the topic that names it. */
  lemma MarkedRowIsAnnounced(env: Env, s0: State, run: seq<Attempt>, i: nat)
    requires CollisionFree(env) && Initial(s0)
    requires i < |Exec(env, s0, run).rows| && Keyed(Exec(env, s0, run).rows[i]) && IsPublished(Exec(env, s0, run).rows[i])
    ensures exists e :: e in Exec(env, s0, run).topic && e.bronzeRef == Exec(env, s0, run).rows[i].id
  {
    hide Exec;
    var s := Exec(env, s0, run);
    KeyedRowIsNew(env, s0, run, i);
    PublishConservation(env, s0, run, s.rows[i].id);
    assert Marked(s.rows, s.rows[i].id);
    if forall e :: e in s.topic ==> e.bronzeRef != s.rows[i].id {
      UnnamedMeansUnpublished(s.topic, s.rows[i].id);
      assert false;
    }
  }

  /** The row is FAILED and preflight rejects the bytes, or a message on the topic names it. */
  predicate FailedOrAnnounced(env: Env, r: Row, topic: seq<Envelope>, data: Bytes) {
    if r.status == FAILED then env.preflight(data).Rejected? else exists e :: e in topic && e.bronzeRef == r.id
  }

  /** In every run, an acknowledged well-formed message was refused for its path or by the PII gate, or its bytes
      failed preflight, or they are announced on the topic. */
  lemma AckedIsRefusedOrAnnounced(env: Env, s0: State, run: seq<Attempt>, d: Delivery)
    requires CollisionFree(env) && HashNeverBlank(env) && Initial(s0) && Read(d.body).Parsed?
    requires ProcessMessage(env, Exec(env, s0, run), d).1 == Some(Ack)
    ensures
      var s, a := Exec(env, s0, run), d.attempt.(event := Read(d.body).event);
      var s' := Process(env, s, a).0;
      || CrossCheck(env, a.event) == Err(PathMismatch)
      || (&& a.download.Some? && env.preflight(a.download.value).Sniffed?
          && !PiiClears(env, env.preflight(a.download.value).columns)
          && s'.rows == s.rows && s'.topic == s.topic)
      || (a.download.Some? && exists r ::
            && r in s'.rows && HasKey(r, KeyFor(env, a.event, a.download.value))
            && FailedOrAnnounced(env, r, s'.topic, a.download.value))
  {
    hide Exec, Process, CrossCheck, PiiClears, Inv, Read, HasKey, FailedOrAnnounced, Concluded, CollisionFree;
    var s, a := Exec(env, s0, run), d.attempt.(event := Read(d.body).event);
    ReachableInv(env, s0, run);
    InvDistinct(env, s);
    NoAckLosesData(env, s, d);
    var (s', o) := Process(env, s, a);
    if a.download.Some? && RowConcludes(s'.rows, o, KeyFor(env, a.event, a.download.value)) {
      var key := KeyFor(env, a.event, a.download.value);
      var r :| r in s'.rows && HasKey(r, key) && Concluded(r);
      var i :| 0 <= i < |s'.rows| && s'.rows[i] == r;
      ExecSnoc(env, s0, run, a);
      ConcludedIsFailedOrAnnounced(env, s0, run + [a], i, key, a.download.value);
    }
  }

  lemma ConcludedIsFailedOrAnnounced(env: Env, s0: State, run: seq<Attempt>, i: nat, key: Key, data: Bytes)
    requires CollisionFree(env) && Initial(s0) && i < |Exec(env, s0, run).rows|
    requires HasKey(Exec(env, s0, run).rows[i], key) && key.sha == env.sha256(data) && Concluded(Exec(env, s0, run).rows[i])
    ensures FailedOrAnnounced(env, Exec(env, s0, run).rows[i], Exec(env, s0, run).topic, data)
  {
    hide Exec, Inv;
    ReachableInv(env, s0, run);
    PriorBytes(env, Exec(env, s0, run), data, i);
    if Exec(env, s0, run).rows[i].status != FAILED { MarkedRowIsAnnounced(env, s0, run, i); }
  }

  lemma ExecSnoc(env: Env, s0: State, run: seq<Attempt>, a: Attempt)
    ensures Exec(env, s0, run + [a]) == Process(env, Exec(env, s0, run), a).0
  {
    hide Process;
    assert (run + [a])[..|run|] == run;
  }

  /** No row of the key is in the window, and the PII gate stops the header. */
  predicate Blocked(env: Env, rows: seq<Row>, key: Key, cutoff: Instant, data: Bytes) {
    FindPrior(rows, key, cutoff).None? && env.preflight(data).Sniffed? && !PiiClears(env, env.preflight(data).columns)
  }

  lemma LookupBlocks(env: Env, s: State, a: Attempt, data: Bytes)
    requires DistinctIds(s.rows)
    ensures
      var o := AfterLookup(env, s, a, data).1;
      o.Raised? && Terminal(o.failure) <==> Blocked(env, s.rows, KeyFor(env, a.event, data), s.clock - WINDOW, data)
  {
    hide HandleDuplicate, HandlePreflightFailure, FindPrior, DistinctIds, PiiClears, Announce, InsertRow, RowConcludes;
    var prior := FindPrior(s.rows, KeyFor(env, a.event, data), s.clock - WINDOW);
    if prior.Some? {
      DuplicateDone(env, s, a, prior.value, data);
    } else if env.preflight(data).Rejected? {
      RejectedDone(env, s, a, data);
    } else {
      FreshDone(env, s, a, data);
    }
  }

  /** Exactly when a delivery without I/O faults is acknowledged: its envelope violates the contract, or
      its path disagrees with it, or the PII gate stops it, or its key settles.
      It is left undecided exactly when the parse raises something else than a contract violation. */
  lemma FaultFreeAckExactly(env: Env, s: State, d: Delivery)
    requires CollisionFree(env) && HashNeverBlank(env) && Inv(env, s) && FaultFree(s, d.attempt)
    ensures
      ProcessMessage(env, s, d).1 == Some(Ack) <==>
      || Read(d.body).Malformed?
      || (Read(d.body).Parsed? && AckDue(env, s, d.attempt.(event := Read(d.body).event)))
    ensures ProcessMessage(env, s, d).1 == None <==> Read(d.body).Escapes?
  {
    hide Process, Inv, CanSettle, Blocked, CrossCheck, Blank, Reports, AfterLookup, Read, ValidEvent;
    if Read(d.body).Parsed? {
      var a := d.attempt.(event := Read(d.body).event);
      FaultFreeDeliverySettles(env, s, a);
      InvDistinct(env, s);
      ProcessStages(env, s, a);
      ValidSessionIsNotBlank(a.event);
      if ReachesLookup(env, a) {
        LookupBlocks(env, s.(clock := s.clock + a.beforeLookup), a, a.download.value);
      } else {
        StopsEarly(env, s, a);
      }
    }
  }

  predicate AckDue(env: Env, s: State, a: Attempt)
    requires a.download.Some?
  {
    var data := a.download.value;
    var key, cutoff := KeyFor(env, a.event, data), s.clock + a.beforeLookup - WINDOW;
    match CrossCheck(env, a.event)
    case Err(f) => f == PathMismatch
    case Ok(_) =>
      Blocked(env, s.rows, key, cutoff, data) || CanSettle(env, s.rows, key, cutoff, data)
  }

  lemma StopsEarly(env: Env, s: State, a: Attempt)
    requires !ReachesLookup(env, a) && a.download.Some?
    ensures
      var check := CrossCheck(env, a.event);
      Process(env, s, a).1 == Raised(if check.Err? then check.error else ContractFailure)
  {
    hide CrossCheck, Blank, AfterLookup;
  }

  /** The session pattern rules out a blank key component. */
  lemma ValidSessionIsNotBlank(e: Event)
    requires ValidEvent(e)
    ensures !Blank(e.session)
  {
    BlankIsAllSpace(e.session);
    assert !IsSpace(e.session[0]);
  }

  // ---------------------------------------------------------------- the producer's own path

  lemma BuiltKey(e: Event, utc: UtcDate) returns (key: string)
    requires e.source != "" && Trimmed(e.source) && Without(e.source, '/') && Without(e.source, '\n')
    ensures Build(e.tenant, e.source, e.trace, Aware(utc), "csv") == Ok(key)
    ensures key == PathText(ParsedPath(e.tenant, e.source, utc, e.trace, "csv"))
    ensures Parse(key) == Ok(ParsedPath(e.tenant, e.source, utc, e.trace, "csv"))
  {
    hide Build, Parse, PathText, Normalised, UuidOf, Strip;
    var p := ParsedPath(e.tenant, e.source, utc, e.trace, "csv");
    UuidTrimmed(e.trace);
    CsvIsPlain();
    NormalisedTrimmed(e.source, e.trace, "csv");
    BuildComponents(p);
    key := PathText(p);
    UuidTrimmed(e.tenant);
    UuidOfCanonical(e.tenant);
    UuidHasNoSlash(e.trace);
    ParseBuilt(e.tenant, e.source, e.trace, Aware(utc), "csv");
  }

  lemma CsvIsPlain()
    ensures Trimmed("csv") && Without("csv", '/') && Without("csv", '.') && Without("csv", '\n')
  {
  }

  lemma UuidHasNoSlash(u: Uuid)
    ensures Without(u, '/') && Without(u, '\n')
  {
  }

  lemma PathTextOneLine(p: ParsedPath)
    requires Without(p.source, '\n') && Without(p.trace, '\n') && Without(p.ext, '\n')
    ensures Without(PathText(p), '\n')
  {
    UuidHasNoSlash(p.tenant);
    assert AllDigits(Padded(p.date.year, 4)) && AllDigits(Padded(p.date.month, 2)) && AllDigits(Padded(p.date.day, 2));
    assert Without(DateText(p.date, p.trace + "." + p.ext), '\n');
  }

  lemma KeyIsUriSafe(p: ParsedPath)
    requires p.ext == "csv" && Without(p.source, '\n') && Without(p.trace, '\n')
    ensures var key := PathText(p); key != "" && Without(key, '\n') && !IsSpace(key[|key| - 1])
  {
    hide PathText, Without, IsSpace;
    CsvIsPlain();
    PathTextOneLine(p);
    PathTextTrimmed(p);
    PathTextLength(p);
  }

  lemma CrossCheckOf(env: Env, e: Event, key: string, date: CivilDate)
    requires SplitUri(e.gcsUri) == Some((env.bucket, key))
    requires Parse(key) == Ok(ParsedPath(e.tenant, e.source, date, e.trace, "csv"))
    ensures CrossCheck(env, e) == Ok(key)
  {
    hide SplitUri, Parse;
  }

  /** A csv path can be built from an event's own identity, and an event that points at it in the
      worker's bucket passes the cross-check. */
  lemma OwnPathPassesCrossCheck(env: Env, e: Event, utc: UtcDate)
    requires IsBucket(env.bucket)
    requires e.source != "" && Trimmed(e.source) && Without(e.source, '/') && Without(e.source, '\n')
    ensures
      var built := Build(e.tenant, e.source, e.trace, Aware(utc), "csv");
      && built.Ok?
      && (e.gcsUri == "gs://" + (env.bucket + ("/" + built.value)) ==> CrossCheck(env, e) == Ok(built.value))
  {
    hide Build, Parse, SplitUri, PathText, CrossCheck, Without, Trimmed, IsBucket, IsSpace;
    var key := BuiltKey(e, utc);
    UuidHasNoSlash(e.trace);
    KeyIsUriSafe(ParsedPath(e.tenant, e.source, utc, e.trace, "csv"));
    if e.gcsUri == "gs://" + (env.bucket + ("/" + key)) {
      SplitUriJoined(env.bucket, key);
      CrossCheckOf(env, e, key, utc);
    }
  }

  /** What the builder writes of an event's own identity. */
  lemma BuiltText(e: Event, utc: UtcDate)
    ensures
      var built := Build(e.tenant, e.source, e.trace, Aware(utc), "csv");
      && (built.Ok? <==> Strip(e.source) != "")
      && (built.Ok? ==> built.value == PathText(ParsedPath(e.tenant, Strip(e.source), utc, e.trace, "csv")))
  {
    hide Build, PathText, UuidOf, Normalised, Strip;
    NormalisedOwn(e.source, e.trace);
    BuildComponents(ParsedPath(e.tenant, e.source, utc, e.trace, "csv"));
  }

  lemma NormalisedOwn(source: string, trace: Uuid)
    ensures Normalised(source, trace, "csv") == (Strip(source), trace, "csv") && trace != ""
  {
    hide Strip;
    CsvIsPlain();
    UuidTrimmed(trace);
    NormalisedTrimmed("", trace, "csv");
  }

  lemma SourceInPath(p: ParsedPath)
    requires Without(PathText(p), '\n')
    ensures Without(p.source, '\n')
  {
    hide DateText;
    forall i | 0 <= i < |p.source| ensures p.source[i] != '\n' {
      assert PathText(p)[51 + i] == p.source[i];
    }
  }

  lemma SplitKeyIsOneLine(uri: string)
    requires SplitUri(uri).Some?
    ensures Without(SplitUri(uri).value.1, '\n')
  {
    hide Strip, Expect, FirstIndex, TakeSegment;
  }

  /** A URI that starts and ends on no space names its key. */
  lemma OwnKeyIsSplit(bucket: string, key: string, k: string)
    requires key != "" && !IsSpace(key[|key| - 1])
    requires SplitUri("gs://" + (bucket + ("/" + key))) == Some((bucket, k))
    ensures k == key
  {
    hide SplitUri;
    var uri := "gs://" + (bucket + ("/" + key));
    assert uri[0] == 'g' && uri[|uri| - 1] == key[|key| - 1];
    assert Strip(uri) == uri;
    assert uri == "gs://" + (bucket + ("/" + k));
    assert uri[|uri| - |key|..] == key && uri[|uri| - |k|..] == k && |key| == |k|;
  }

  predicate OneLineSegment(s: string) {
    s != "" && Without(s, '/') && Without(s, '\n')
  }

  lemma PassingSourceIsPlain(env: Env, e: Event, utc: UtcDate, key: string)
    requires Strip(e.source) != "" && key == PathText(ParsedPath(e.tenant, Strip(e.source), utc, e.trace, "csv"))
    requires e.gcsUri == "gs://" + (env.bucket + ("/" + key)) && CrossCheck(env, e).Ok?
    ensures Trimmed(e.source) && OneLineSegment(e.source) && CrossCheck(env, e) == Ok(key)
  {
    hide PathText, Parse, SplitUri, Without, Spells;
    var want := ParsedPath(e.tenant, Strip(e.source), utc, e.trace, "csv");
    CsvIsPlain();
    PathTextTrimmed(want);
    PathTextLength(want);
    var k := CrossCheck(env, e).value;
    OwnKeyIsSplit(env.bucket, key, k);
    SplitKeyIsOneLine(e.gcsUri);
    var p := Parse(key).value;
    ParseIffSpelled(key, p);
    PathTextLength(p);
    SpelledText(key, p);
    StripSameLength(e.source);
    SourceInPath(p);
  }

  lemma SpelledText(s: string, p: ParsedPath)
    requires Spells(s, p)
    ensures s == PathText(p) && p.source != "" && Without(p.source, '/')
  {
  }

  /** An event at its own built csv path passes the cross-check if and only if its source is trimmed, slash-free
      and newline-free. An untrimmed one is stripped by the builder, and then refused as a mismatch. */
  lemma OwnPathPassesIff(env: Env, e: Event, utc: UtcDate)
    requires IsBucket(env.bucket)
    ensures
      var built := Build(e.tenant, e.source, e.trace, Aware(utc), "csv");
      && (built.Ok? <==> Strip(e.source) != "")
      && (built.Ok? && e.gcsUri == "gs://" + (env.bucket + ("/" + built.value)) ==>
            && (CrossCheck(env, e) == Ok(built.value) <==> Trimmed(e.source) && OneLineSegment(e.source))
            && (CrossCheck(env, e).Ok? ==> CrossCheck(env, e) == Ok(built.value))
            && (!Trimmed(e.source) && OneLineSegment(Strip(e.source)) ==> CrossCheck(env, e) == Err(PathMismatch)))
  {
    hide Build, PathText, CrossCheck, Without, Trimmed, IsBucket, Strip;
    var built := Build(e.tenant, e.source, e.trace, Aware(utc), "csv");
    BuiltText(e, utc);
    if built.Ok? && e.gcsUri == "gs://" + (env.bucket + ("/" + built.value)) {
      if CrossCheck(env, e).Ok? { PassingSourceIsPlain(env, e, utc, built.value); }
      if Trimmed(e.source) && OneLineSegment(e.source) { OwnPathPassesCrossCheck(env, e, utc); }
      if !Trimmed(e.source) && OneLineSegment(Strip(e.source)) { StrippedSourceMismatches(env, e, utc, built.value); }
    }
  }

  lemma StrippedSourceMismatches(env: Env, e: Event, utc: UtcDate, key: string)
    requires IsBucket(env.bucket) && !Trimmed(e.source) && OneLineSegment(Strip(e.source))
    requires key == PathText(ParsedPath(e.tenant, Strip(e.source), utc, e.trace, "csv"))
    requires e.gcsUri == "gs://" + (env.bucket + ("/" + key))
    ensures CrossCheck(env, e) == Err(PathMismatch)
  {
    hide Parse, SplitUri, PathText, Without, IsBucket, IsSpace, CrossCheck, Build, Strip, Trimmed;
    var stripped := e.(source := Strip(e.source));
    var built := BuiltKey(stripped, utc);
    UuidHasNoSlash(e.trace);
    KeyIsUriSafe(ParsedPath(e.tenant, stripped.source, utc, e.trace, "csv"));
    SplitUriJoined(env.bucket, key);
    MismatchOf(env, e, key, ParsedPath(e.tenant, stripped.source, utc, e.trace, "csv"));
  }

  lemma MismatchOf(env: Env, e: Event, key: string, p: ParsedPath)
    requires SplitUri(e.gcsUri) == Some((env.bucket, key)) && Parse(key) == Ok(p) && p.source != e.source
    ensures CrossCheck(env, e) == Err(PathMismatch)
  {
    hide SplitUri, Parse;
  }

  /** Conversely, an event that passes points into its own tenant's, source's and trace's csv path. */
  lemma CrossCheckPins(env: Env, e: Event, key: string)
    requires CrossCheck(env, e) == Ok(key)
    ensures exists date ::
      && Spells(Strip(key), ParsedPath(e.tenant, e.source, date, e.trace, "csv"))
      && Strip(e.gcsUri) == "gs://" + (env.bucket + ("/" + key))
  {
    hide Spells, Parse, SplitUri, Strip;
    ParseIffSpelled(key, Parse(key).value);
    assert Parse(key).value == ParsedPath(e.tenant, e.source, Parse(key).value.date, e.trace, "csv");
  }
}
