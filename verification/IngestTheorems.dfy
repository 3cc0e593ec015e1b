/** Safety over whole runs of the ingest worker. */
module IngestTheorems {
  import opened Wrappers
  import opened Text
  import opened Uuids
  import opened ObjectPath
  import opened Ingest
  import opened IngestInvariant

  // ---------------------------------------------------------------- what one attempt does

  /** A FAILED row has no row count; any other has the count preflight took of its bytes. */
  predicate CountFits(env: Env, r: Row, data: Bytes) {
    if r.status == FAILED then r.rowCount == None
    else env.preflight(data).Sniffed? && r.rowCount == Some(env.preflight(data).rowCount)
  }

  /** The row an attempt inserts for its own event. */
  predicate OwnRow(env: Env, a: Attempt, row: Row) {
    && a.download.Some?
    && (row.status == FAILED || row.status == RECEIVED)
    && CountFits(env, row, a.download.value)
    && row == BronzeRow(a, a.download.value, env.sha256(a.download.value), row.rowCount, row.receivedAt, row.status)
  }

  /** The envelope for row `r` that an attempt builds from its own event. */
  predicate OwnEnvelope(a: Attempt, e: Envelope, r: Row) {
    && e == Envelope(r.trace, a.event.tenant, a.event.store, a.event.source, a.event.template, r.id,
                     a.event.gcsUri, r.receivedAt, e.delimiter, a.event.tenantCode, a.event.storeCode)
    && |e.delimiter| == 1
  }

  /** The two kinds of durable change: perhaps one new row, then perhaps one announcement of one
      RECEIVED row of the attempt's key, which may or may not get marked. */
  datatype Effects = Effects(base: seq<Row>, announced: Option<nat>)

  predicate Grew(env: Env, a: Attempt, rows: seq<Row>, base: seq<Row>) {
    || base == rows
    || (&& |base| == |rows| + 1 && base == rows + [base[|rows|]]
        && OwnRow(env, a, base[|rows|]) && !IdTaken(rows, base[|rows|].id))
  }

  predicate Did(env: Env, s: State, a: Attempt, s': State, x: Effects) {
    && s.clock <= s'.clock
    && Grew(env, a, s.rows, x.base)
    && match x.announced
       case None => s'.rows == x.base && s'.topic == s.topic
       case Some(k) =>
         && k < |x.base| && x.base[k].status == RECEIVED && !IsPublished(x.base[k])
         && a.download.Some? && HasKey(x.base[k], KeyFor(env, a.event, a.download.value))
         && |s'.topic| == |s.topic| + 1 && s'.topic == s.topic + [s'.topic[|s.topic|]]
         && OwnEnvelope(a, s'.topic[|s.topic|], x.base[k])
         && !a.publish.FailsBefore?
         && s'.rows == if MarkCommits(a) then x.base[k := Stamped(x.base[k], s'.clock)] else x.base
  }

  /** The publish returned and the mark reached the table. */
  predicate MarkCommits(a: Attempt) {
    a.publish.Completes? && !a.mark.FailsBefore?
  }

  lemma AnnounceDid(env: Env, s0: State, s: State, a: Attempt, k: nat, delimiter: string, d: Disposition)
    returns (x: Effects)
    requires DistinctIds(s.rows) && k < |s.rows| && s.rows[k].status == RECEIVED && !IsPublished(s.rows[k])
    requires a.download.Some? && HasKey(s.rows[k], KeyFor(env, a.event, a.download.value))
    requires s0.clock <= s.clock && s0.topic == s.topic
    requires Grew(env, a, s0.rows, s.rows)
    ensures
      var r := s.rows[k];
      Did(env, s0, a, Announce(s, a, r.trace, r.id, r.receivedAt, delimiter, d).0, x)
    ensures x.base == s.rows
  {
    hide Grew;
    assert a.event.tenant == s.rows[k].tenant;
    var r := s.rows[k];
    MarkTouchesOne(s.rows, k, s.clock + a.beforeMark);
    var built := BuildEnvelope(a.event, r.trace, r.id, r.receivedAt, delimiter);
    if built.Err? || a.publish.FailsBefore? {
      x := Effects(s.rows, None);
    } else {
      x := Effects(s.rows, Some(k));
      assert OwnEnvelope(a, built.value, r);
      var (s', ok) := PublishAndMark(s, a, built.value);
      assert s'.rows == if MarkCommits(a) then s.rows[k := Stamped(r, s'.clock)] else s.rows;
    }
  }

  /** Either outcome of the INSERT of the attempt's own row. */
  lemma InsertGrew(env: Env, rows: seq<Row>, a: Attempt, row: Row)
    requires DistinctIds(rows) && OwnRow(env, a, row)
    ensures
      var (out, ok) := InsertRow(rows, row, a.insert);
      && Grew(env, a, rows, out) && DistinctIds(out)
      && (ok ==> out == rows + [row])
  {
    var (out, ok) := InsertRow(rows, row, a.insert);
    if out != rows {
      assert out[|rows|] == row;
    }
  }

  lemma FreshDid(env: Env, s0: State, s: State, a: Attempt, data: Bytes) returns (x: Effects)
    requires DistinctIds(s.rows) && s.rows == s0.rows && s.topic == s0.topic && s0.clock <= s.clock
    requires a.download == Some(data) && env.preflight(data).Sniffed?
    ensures Did(env, s0, a, IngestFresh(env, s, a, data, env.sha256(data), env.preflight(data)).0, x)
  {
    var sniff := env.preflight(data);
    var result := IngestFresh(env, s, a, data, env.sha256(data), sniff);
    if !PiiClears(env, sniff.columns) {
      x := Effects(s.rows, None);
      assert result.0 == s;
    } else {
      var at := s.clock + a.beforeInsert;
      var row := BronzeRow(a, data, env.sha256(data), Some(sniff.rowCount), at, RECEIVED);
      InsertGrew(env, s.rows, a, row);
      var (rows, ok) := InsertRow(s.rows, row, a.insert);
      var s1 := s.(rows := rows, clock := at);
      if ok {
        assert rows[|s.rows|] == row;
        x := AnnounceDid(env, s0, s1, a, |s.rows|, sniff.delimiter, Ingested);
        assert result == Announce(s1, a, row.trace, row.id, row.receivedAt, sniff.delimiter, Ingested);
      } else {
        x := Effects(rows, None);
        assert result.0 == s1;
      }
    }
  }

  lemma DuplicateDid(env: Env, s0: State, s: State, a: Attempt, prior: Row, data: Bytes) returns (x: Effects)
    requires DistinctIds(s.rows) && s.rows == s0.rows && s.topic == s0.topic && s0.clock <= s.clock
    requires a.download == Some(data) && prior in s.rows && HasKey(prior, KeyFor(env, a.event, data))
    ensures Did(env, s0, a, HandleDuplicate(env, s, a, prior, data).0, x)
  {
    if Concluded(prior) || env.preflight(data).Rejected? {
      x := Effects(s.rows, None);
      assert HandleDuplicate(env, s, a, prior, data).0 == s;
    } else {
      var k :| 0 <= k < |s.rows| && s.rows[k] == prior;
      x := AnnounceDid(env, s0, s, a, k, env.preflight(data).delimiter, DuplicateResumed);
    }
  }

  lemma RejectedDid(env: Env, s0: State, s: State, a: Attempt, data: Bytes) returns (x: Effects)
    requires DistinctIds(s.rows) && s.rows == s0.rows && s.topic == s0.topic && s0.clock <= s.clock
    requires a.download == Some(data)
    ensures Did(env, s0, a, HandlePreflightFailure(s, a, data, env.sha256(data)).0, x)
  {
    var row := BronzeRow(a, data, env.sha256(data), None, s.clock + a.beforeInsert, FAILED);
    InsertGrew(env, s.rows, a, row);
    x := Effects(InsertRow(s.rows, row, a.insert).0, None);
  }

  lemma AfterLookupDid(env: Env, s0: State, s: State, a: Attempt) returns (x: Effects)
    requires DistinctIds(s.rows) && s.rows == s0.rows && s.topic == s0.topic && s0.clock <= s.clock
    requires a.download.Some?
    ensures Did(env, s0, a, AfterLookup(env, s, a, a.download.value).0, x)
  {
    hide Did, HandleDuplicate, HandlePreflightFailure, IngestFresh, FindPrior, DistinctIds;
    var data := a.download.value;
    var key := KeyFor(env, a.event, data);
    var prior := FindPrior(s.rows, key, s.clock - WINDOW);
    if prior.Some? {
      x := DuplicateDid(env, s0, s, a, prior.value, data);
      assert AfterLookup(env, s, a, data) == HandleDuplicate(env, s, a, prior.value, data);
    } else if env.preflight(data).Rejected? {
      x := RejectedDid(env, s0, s, a, data);
      assert AfterLookup(env, s, a, data) == HandlePreflightFailure(s, a, data, key.sha);
    } else {
      x := FreshDid(env, s0, s, a, data);
      assert AfterLookup(env, s, a, data) == IngestFresh(env, s, a, data, key.sha, env.preflight(data));
    }
  }

  lemma ProcessDid(env: Env, s: State, a: Attempt) returns (x: Effects)
    requires DistinctIds(s.rows)
    ensures Did(env, s, a, Process(env, s, a).0, x)
  {
    ProcessStages(env, s, a);
    if ReachesLookup(env, a) && a.lookupOk {
      var s1 := s.(clock := s.clock + a.beforeLookup);
      x := AfterLookupDid(env, s, s1, a);
    } else {
      x := Effects(s.rows, None);
    }
  }

  // ---------------------------------------------------------------- gates and spacing

  /** Every message on the topic, in every run, whichever branch sent it, names the row of bytes that preflight
      accepts and in whose header no PII is detected, unless there is a backend for it. */
  lemma EveryPublishPassedBothGates(env: Env, s0: State, run: seq<Attempt>, e: Envelope)
    returns (k: nat)
    requires CollisionFree(env) && Initial(s0)
    requires e in Exec(env, s0, run).topic
    ensures
      var rows := Exec(env, s0, run).rows;
      && k < |rows| && Keyed(rows[k]) && rows[k].status != FAILED
      && e.bronzeRef == rows[k].id && e.tenant == rows[k].tenant && e.trace == rows[k].trace
      && e.receivedTs == rows[k].receivedAt
      && (forall data :: env.sha256(data) == rows[k].sha.value ==>
            && env.preflight(data).Sniffed? && e.delimiter == env.preflight(data).delimiter
            && (env.detectPii(env.preflight(data).columns) == {} || env.piiBackend))
      && (exists data :: env.sha256(data) == rows[k].sha.value)
  {
    ReachableInv(env, s0, run);
    var s := Exec(env, s0, run);
    var i :| 0 <= i < |s.topic| && s.topic[i] == e;
    k :| 0 <= k < |s.rows| && Announces(env, e, s.rows[k]);
    var behind :| BytesBehind(env, s.rows[k], behind) && e.delimiter == env.preflight(behind).delimiter;
    forall data | env.sha256(data) == s.rows[k].sha.value
      ensures PassesGates(env, data) && e.delimiter == env.preflight(data).delimiter
    {
      assert env.sha256(data) == env.sha256(behind);
    }
  }

  /** In every run, two rows of one tenant, upload session and hash are more than 24 hours apart. */
  lemma RowsOfOneKeyAreADayApart(env: Env, s0: State, run: seq<Attempt>, i: nat, j: nat)
    requires CollisionFree(env) && Initial(s0)
    requires i < j < |Exec(env, s0, run).rows|
    requires
      var rows := Exec(env, s0, run).rows;
      && rows[i].channel == "csv_upload" && rows[j].channel == "csv_upload" && rows[i].tenant == rows[j].tenant
      && rows[i].session.Some? && rows[i].session == rows[j].session && rows[i].sha.Some? && rows[i].sha == rows[j].sha
    ensures
      var x, y := Exec(env, s0, run).rows[i].receivedAt, Exec(env, s0, run).rows[j].receivedAt;
      x - y > 24 * 3600 * 1_000_000 || y - x > 24 * 3600 * 1_000_000
  {
    ReachableInv(env, s0, run);
  }

  /** At any moment from the table's clock on, at most one row of a key is inside the window, so the
      lookup's `ORDER BY ... LIMIT 1` never has to choose. */
  lemma LookupIsUnambiguous(env: Env, s: State, r: Row, k: Key, now: Instant)
    requires Inv(env, s) && s.clock <= now
    requires r in s.rows && InWindow(r, k, now - WINDOW)
    ensures FindPrior(s.rows, k, now - WINDOW) == Some(r)
  {
    hide FindPrior;
    var found := FindPrior(s.rows, k, now - WINDOW).value;
    var i :| 0 <= i < |s.rows| && s.rows[i] == r;
    var j :| 0 <= j < |s.rows| && s.rows[j] == found;
    assert RowOk(env, s.rows[i], s.clock) && RowOk(env, s.rows[j], s.clock);
    assert KeyOf(r) == k == KeyOf(found);
    assert !Apart(s.rows[i], s.rows[j]);
  }

  // ---------------------------------------------------------------- lifecycle

  /** A row is left alone, or goes from RECEIVED to PUBLISHED and nothing else about it changes. */
  predicate Follows(before: Row, after: Row) {
    || after == before
    || (&& Keyed(before) && before.status == RECEIVED && after.publishedAt.Some?
        && after == Stamped(before, after.publishedAt.value))
  }

  lemma AttemptFollows(env: Env, s: State, a: Attempt, i: nat)
    requires DistinctIds(s.rows) && i < |s.rows|
    ensures |s.rows| <= |Process(env, s, a).0.rows| && Follows(s.rows[i], Process(env, s, a).0.rows[i])
  {
    hide Process;
    var x := ProcessDid(env, s, a);
    assert x.base[i] == s.rows[i];
  }

  /** Over any run no row disappears, and each only ever moves from RECEIVED to PUBLISHED. */
  lemma {:induction false} RowsOnlyMoveForward(env: Env, s: State, run: seq<Attempt>, i: nat)
    requires CollisionFree(env) && Inv(env, s) && i < |s.rows|
    ensures |s.rows| <= |Exec(env, s, run).rows| && Follows(s.rows[i], Exec(env, s, run).rows[i])
  {
    hide Process;
    if run != [] {
      var mid := Exec(env, s, run[..|run| - 1]);
      RowsOnlyMoveForward(env, s, run[..|run| - 1], i);
      RunKeeps(env, s, run[..|run| - 1]);
      AttemptFollows(env, mid, run[|run| - 1], i);
    }
  }

  /** No run ever marks a FAILED row, and no message names one. */
  lemma FailedRowsStayFailed(env: Env, s: State, run: seq<Attempt>, i: nat)
    requires CollisionFree(env) && Inv(env, s) && i < |s.rows| && s.rows[i].status == FAILED && Keyed(s.rows[i])
    ensures |s.rows| <= |Exec(env, s, run).rows|
    ensures
      var s' := Exec(env, s, run);
      s'.rows[i] == s.rows[i] && forall e :: e in s'.topic ==> e.bronzeRef != s.rows[i].id
  {
    RowsOnlyMoveForward(env, s, run, i);
    RunKeeps(env, s, run);
    var s' := Exec(env, s, run);
    forall e | e in s'.topic ensures e.bronzeRef != s.rows[i].id {
      var n :| 0 <= n < |s'.topic| && s'.topic[n] == e;
      var j :| 0 <= j < |s'.rows| && Announces(env, e, s'.rows[j]);
      assert s'.rows[j].status != FAILED;
      assert j != i;
    }
  }

  // ---------------------------------------------------------------- where things come from

  /** Row `r` records the identity of attempt `a`'s event and describes the bytes it downloaded. */
  predicate RowOf(env: Env, r: Row, a: Attempt) {
    var e := a.event;
    && r.tenant == e.tenant && r.trace == e.trace && r.session == Some(e.session)
    && r.store == e.store && r.source == e.source && r.template == Some(e.template) && r.gcsUri == e.gcsUri
    && a.download.Some? && r.size == |a.download.value| && r.sha == Some(env.sha256(a.download.value))
    && CountFits(env, r, a.download.value)
  }

  /** Every row a run adds records a delivered event and its downloaded bytes; in particular its trace id
      was read, not minted. */
  lemma {:induction false} RowOrigin(env: Env, s0: State, run: seq<Attempt>, i: nat) returns (j: nat)
    requires CollisionFree(env) && Inv(env, s0) && |s0.rows| <= i < |Exec(env, s0, run).rows|
    ensures j < |run| && RowOf(env, Exec(env, s0, run).rows[i], run[j])
  {
    hide Process, Inv, RowOf, Follows;
    var front, a := run[..|run| - 1], run[|run| - 1];
    var mid := Exec(env, s0, front);
    RunKeeps(env, s0, front);
    InvDistinct(env, mid);
    if i < |mid.rows| {
      AttemptFollows(env, mid, a, i);
      j := RowOrigin(env, s0, front, i);
      RowOfFollows(env, mid.rows[i], Exec(env, s0, run).rows[i], run[j]);
    } else {
      j := |run| - 1;
      NewRowOf(env, mid, a, i);
    }
  }

  lemma RowOfFollows(env: Env, before: Row, after: Row, a: Attempt)
    requires Follows(before, after) && RowOf(env, before, a)
    ensures RowOf(env, after, a)
  {
  }

  lemma NewRowOf(env: Env, s: State, a: Attempt, i: nat)
    requires DistinctIds(s.rows) && |s.rows| <= i < |Process(env, s, a).0.rows|
    ensures RowOf(env, Process(env, s, a).0.rows[i], a)
  {
    hide Process;
    var x := ProcessDid(env, s, a);
  }

  lemma InvDistinct(env: Env, s: State)
    requires Inv(env, s)
    ensures DistinctIds(s.rows)
  {
  }

  /** What an envelope takes from the event it was built for. */
  predicate Carries(x: Envelope, e: Event) {
    && x.store == e.store && x.source == e.source && x.template == e.template && x.gcsUri == e.gcsUri
    && x.tenantCode == e.tenantCode && x.storeCode == e.storeCode
  }

  /** Every published envelope was built from a delivered event of the named row's tenant and session. */
  lemma {:induction false} EnvelopeOrigin(env: Env, s0: State, run: seq<Attempt>, n: nat) returns (j: nat, k: nat)
    requires CollisionFree(env) && Initial(s0) && n < |Exec(env, s0, run).topic|
    ensures
      var s := Exec(env, s0, run);
      && j < |run| && Carries(s.topic[n], run[j].event)
      && |s0.rows| <= k < |s.rows| && s.rows[k].id == s.topic[n].bronzeRef
      && s.rows[k].tenant == run[j].event.tenant && s.rows[k].session == Some(run[j].event.session)
  {
    hide Process, Inv;
    var front, a := run[..|run| - 1], run[|run| - 1];
    var mid := Exec(env, s0, front);
    ReachableInv(env, s0, front);
    InvDistinct(env, mid);
    var x := ProcessDid(env, mid, a);
    if n < |mid.topic| {
      j, k := EnvelopeOrigin(env, s0, front, n);
      AttemptFollows(env, mid, a, k);
    } else {
      j, k := |run| - 1, x.announced.value;
      assert Keyed(x.base[k]);
      if k < |s0.rows| {
        OldRowsKept(env, s0, front, k);
        assert s0.rows[k] in s0.rows;
      }
    }
  }

  /** Rows without a dedup key are never touched. */
  lemma {:induction false} OldRowsKept(env: Env, s0: State, run: seq<Attempt>, i: nat)
    requires CollisionFree(env) && Initial(s0) && i < |s0.rows|
    ensures |s0.rows| <= |Exec(env, s0, run).rows| && Exec(env, s0, run).rows[i] == s0.rows[i]
  {
    assert s0.rows[i] in s0.rows;
    InitialInv(env, s0);
    RowsOnlyMoveForward(env, s0, run, i);
  }

  /** Deliveries of one tenant's upload session repeat the same event in the four carried fields. */
  predicate SessionsRepeat(run: seq<Attempt>) {
    forall i, j :: 0 <= i < |run| && 0 <= j < |run|
      && run[i].event.tenant == run[j].event.tenant && run[i].event.session == run[j].event.session
      ==> && run[i].event.store == run[j].event.store && run[i].event.source == run[j].event.source
          && run[i].event.template == run[j].event.template && run[i].event.gcsUri == run[j].event.gcsUri
  }

  /** When sessions repeat their event, every envelope agrees with its row on the carried fields too. */
  lemma EnvelopesMatchTheirRows(env: Env, s0: State, run: seq<Attempt>, n: nat) returns (k: nat)
    requires CollisionFree(env) && Initial(s0) && n < |Exec(env, s0, run).topic|
    requires SessionsRepeat(run)
    ensures
      var s := Exec(env, s0, run);
      && k < |s.rows| && s.rows[k].id == s.topic[n].bronzeRef
      && s.topic[n].store == s.rows[k].store && s.topic[n].source == s.rows[k].source
      && Some(s.topic[n].template) == s.rows[k].template && s.topic[n].gcsUri == s.rows[k].gcsUri
  {
    var j;
    j, k := EnvelopeOrigin(env, s0, run, n);
    InitialInv(env, s0);
    var i := RowOrigin(env, s0, run, k);
  }
}
