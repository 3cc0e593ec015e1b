/** What every attempt keeps, whatever fails and whenever. */
module IngestInvariant {
  import opened Wrappers
  import opened Uuids
  import opened Ingest

  // ---------------------------------------------------------------- the invariant

  /** The bytes behind a keyed row: a FAILED row's bytes were refused by preflight, any other row's
      bytes cleared preflight and the PII gate. */
  ghost predicate BytesBehind(env: Env, r: Row, data: Bytes) {
    && Keyed(r)
    && env.sha256(data) == r.sha.value
    && (if r.status == FAILED then env.preflight(data).Rejected? else PassesGates(env, data))
  }

  predicate Lifecycle(r: Row, clock: Instant) {
    && r.receivedAt <= clock
    && (r.status == PUBLISHED <==> r.publishedAt.Some?)
    && (r.publishedAt.Some? ==> r.receivedAt <= r.publishedAt.value <= clock)
  }

  ghost predicate RowOk(env: Env, r: Row, clock: Instant) {
    Keyed(r) ==> Lifecycle(r, clock) && exists data :: BytesBehind(env, r, data)
  }

  predicate Apart(a: Row, b: Row) {
    a.receivedAt - b.receivedAt > WINDOW || b.receivedAt - a.receivedAt > WINDOW
  }

  /** Two rows of one key lie more than the dedup window apart. */
  predicate Spaced(rows: seq<Row>) {
    forall i, j :: 0 <= i < j < |rows| && Keyed(rows[i]) && Keyed(rows[j]) && KeyOf(rows[i]) == KeyOf(rows[j])
      ==> Apart(rows[i], rows[j])
  }

  /** The envelope announces exactly this row. */
  ghost predicate Announces(env: Env, e: Envelope, r: Row) {
    && Keyed(r) && r.status != FAILED
    && e.bronzeRef == r.id && e.tenant == r.tenant && e.trace == r.trace && e.receivedTs == r.receivedAt
    && |e.delimiter| == 1
    && exists data :: BytesBehind(env, r, data) && e.delimiter == env.preflight(data).delimiter
  }

  ghost predicate Backed(env: Env, rows: seq<Row>, e: Envelope) {
    exists i :: 0 <= i < |rows| && Announces(env, e, rows[i])
  }

  ghost predicate Inv(env: Env, s: State) {
    && DistinctIds(s.rows)
    && Spaced(s.rows)
    && (forall i :: 0 <= i < |s.rows| ==> RowOk(env, s.rows[i], s.clock))
    && (forall i :: 0 <= i < |s.topic| ==> Backed(env, s.rows, s.topic[i]))
  }

  lemma InitialInv(env: Env, s: State)
    requires Initial(s)
    ensures Inv(env, s)
  {
    forall i | 0 <= i < |s.rows| ensures !Keyed(s.rows[i]) { assert s.rows[i] in s.rows; }
  }

  // ---------------------------------------------------------------- elementary steps

  lemma TickKeeps(env: Env, s: State, s': State)
    requires Inv(env, s)
    requires s' == s.(clock := s'.clock) && s.clock <= s'.clock
    ensures Inv(env, s')
  {
  }

  lemma BackedByLonger(env: Env, rows: seq<Row>, row: Row, e: Envelope)
    requires Backed(env, rows, e)
    ensures Backed(env, rows + [row], e)
  {
    var i :| 0 <= i < |rows| && Announces(env, e, rows[i]);
    assert (rows + [row])[i] == rows[i];
  }

  /** No row of the key is inside the window that ends at `now`. */
  predicate WindowEmpty(rows: seq<Row>, k: Key, now: Instant) {
    forall x :: x in rows ==> !InWindow(x, k, now - WINDOW)
  }

  lemma InsertKeeps(env: Env, s: State, row: Row, now: Instant)
    requires Inv(env, s)
    requires Keyed(row) && RowOk(env, row, s.clock)
    requires !IdTaken(s.rows, row.id)
    requires now <= row.receivedAt && WindowEmpty(s.rows, KeyOf(row), now)
    ensures Inv(env, s.(rows := s.rows + [row]))
  {
    var rows := s.rows + [row];
    forall i, j | 0 <= i < j < |rows| && Keyed(rows[i]) && Keyed(rows[j]) && KeyOf(rows[i]) == KeyOf(rows[j])
      ensures Apart(rows[i], rows[j])
    {
      if j == |s.rows| {
        assert s.rows[i] in s.rows;
        assert HasKey(s.rows[i], KeyOf(row));
      }
    }
    forall i | 0 <= i < |s.topic| ensures Backed(env, rows, s.topic[i]) {
      BackedByLonger(env, s.rows, row, s.topic[i]);
    }
  }

  lemma PublishKeeps(env: Env, s: State, e: Envelope)
    requires Inv(env, s) && Backed(env, s.rows, e)
    ensures Inv(env, s.(topic := s.topic + [e]))
  {
  }

  lemma StampKeepsRow(env: Env, r: Row, at: Instant)
    requires RowOk(env, r, at) && r.status == RECEIVED && Keyed(r)
    ensures RowOk(env, Stamped(r, at), at)
    ensures forall e :: Announces(env, e, r) ==> Announces(env, e, Stamped(r, at))
  {
    var data :| BytesBehind(env, r, data);
    assert BytesBehind(env, Stamped(r, at), data);
    forall e | Announces(env, e, r) ensures Announces(env, e, Stamped(r, at)) {
      var d :| BytesBehind(env, r, d) && e.delimiter == env.preflight(d).delimiter;
      assert BytesBehind(env, Stamped(r, at), d);
    }
  }

  /** Stamping one RECEIVED row, at the current clock, keeps the invariant. */
  lemma MarkKeeps(env: Env, s: State, k: nat)
    requires Inv(env, s)
    requires k < |s.rows| && Keyed(s.rows[k]) && s.rows[k].status == RECEIVED
    ensures Inv(env, s.(rows := MarkPublished(s.rows, s.rows[k].tenant, s.rows[k].id, s.clock)))
  {
    hide RowOk, Backed, Announces;
    var out := s.rows[k := Stamped(s.rows[k], s.clock)];
    MarkTouchesOne(s.rows, k, s.clock);
    StampKeepsRow(env, s.rows[k], s.clock);
    forall i | 0 <= i < |s.topic| ensures Backed(env, out, s.topic[i]) {
      StampKeepsBacked(env, s.rows, k, s.clock, s.topic[i]);
    }
  }

  lemma StampKeepsBacked(env: Env, rows: seq<Row>, k: nat, at: Instant, e: Envelope)
    requires k < |rows| && Backed(env, rows, e)
    requires forall x :: Announces(env, x, rows[k]) ==> Announces(env, x, Stamped(rows[k], at))
    ensures Backed(env, rows[k := Stamped(rows[k], at)], e)
  {
    var out := rows[k := Stamped(rows[k], at)];
    var j :| 0 <= j < |rows| && Announces(env, e, rows[j]);
    assert Announces(env, e, out[j]);
  }

  /** With unique ids, the mark changes the one row it names. */
  lemma MarkTouchesOne(rows: seq<Row>, k: nat, at: Instant)
    requires DistinctIds(rows) && k < |rows|
    ensures MarkPublished(rows, rows[k].tenant, rows[k].id, at) == rows[k := Stamped(rows[k], at)]
  {
    assert forall i :: 0 <= i < |rows| && i != k ==> rows[i].id != rows[k].id;
  }

  // ---------------------------------------------------------------- stages

  /** Row `k` is RECEIVED and `e` announces it: publish and mark keep the invariant. */
  lemma PublishAndMarkKeeps(env: Env, s: State, a: Attempt, e: Envelope, k: nat)
    requires Inv(env, s)
    requires k < |s.rows| && s.rows[k].status == RECEIVED && Announces(env, e, s.rows[k])
    requires a.event.tenant == s.rows[k].tenant
    ensures Inv(env, PublishAndMark(s, a, e).0)
  {
    hide Inv;
    if !a.publish.FailsBefore? {
      PublishKeeps(env, s, e);
      if !a.publish.FailsAfter? {
        var s1 := s.(topic := s.topic + [e]);
        var s2 := s1.(clock := s1.clock + a.beforeMark);
        TickKeeps(env, s1, s2);
        if !a.mark.FailsBefore? {
          MarkKeeps(env, s2, k);
        }
      }
    }
  }

  lemma AnnounceKeeps(env: Env, s: State, a: Attempt, k: nat, data: Bytes, d: Disposition)
    requires Inv(env, s)
    requires k < |s.rows| && s.rows[k].status == RECEIVED && BytesBehind(env, s.rows[k], data)
    requires a.event.tenant == s.rows[k].tenant
    ensures
      var r := s.rows[k];
      Inv(env, Announce(s, a, r.trace, r.id, r.receivedAt, env.preflight(data).delimiter, d).0)
  {
    var r := s.rows[k];
    var built := BuildEnvelope(a.event, r.trace, r.id, r.receivedAt, env.preflight(data).delimiter);
    if built.Ok? {
      assert Announces(env, built.value, r);
      PublishAndMarkKeeps(env, s, a, built.value, k);
    }
  }

  /** A RECEIVED row the lookup finds has, behind it, the very bytes just downloaded. */
  lemma PriorBytes(env: Env, s: State, data: Bytes, k: nat)
    requires CollisionFree(env) && Inv(env, s)
    requires k < |s.rows| && Keyed(s.rows[k]) && s.rows[k].sha == Some(env.sha256(data))
    ensures BytesBehind(env, s.rows[k], data)
  {
    var d :| BytesBehind(env, s.rows[k], d);
    assert env.sha256(d) == env.sha256(data);
  }

  lemma HandleDuplicateKeeps(env: Env, s: State, a: Attempt, prior: Row, data: Bytes)
    requires CollisionFree(env) && Inv(env, s)
    requires prior in s.rows && HasKey(prior, KeyFor(env, a.event, data))
    ensures Inv(env, HandleDuplicate(env, s, a, prior, data).0)
  {
    hide Inv;
    if !Concluded(prior) {
      var k :| 0 <= k < |s.rows| && s.rows[k] == prior;
      PriorBytes(env, s, data, k);
      AnnounceKeeps(env, s, a, k, data, DuplicateResumed);
    }
  }

  /** Inserting the attempt's own row after an empty lookup at `now` keeps the invariant. */
  lemma OwnRowKeeps(env: Env, s: State, a: Attempt, data: Bytes, rowCount: Option<nat>, status: Status)
    requires Inv(env, s)
    requires WindowEmpty(s.rows, KeyFor(env, a.event, data), s.clock)
    requires (status == FAILED && env.preflight(data).Rejected?) || (status == RECEIVED && PassesGates(env, data))
    ensures
      var at := s.clock + a.beforeInsert;
      var row := BronzeRow(a, data, env.sha256(data), rowCount, at, status);
      && Inv(env, s.(rows := InsertRow(s.rows, row, a.insert).0, clock := at))
      && BytesBehind(env, row, data)
  {
    hide Inv, WindowEmpty;
    var at := s.clock + a.beforeInsert;
    var row := BronzeRow(a, data, env.sha256(data), rowCount, at, status);
    assert BytesBehind(env, row, data);
    assert KeyOf(row) == KeyFor(env, a.event, data);
    var s1 := s.(clock := at);
    TickKeeps(env, s, s1);
    if !IdTaken(s.rows, row.id) {
      InsertKeeps(env, s1, row, s.clock);
    }
  }

  lemma IngestFreshKeeps(env: Env, s: State, a: Attempt, data: Bytes)
    requires Inv(env, s)
    requires WindowEmpty(s.rows, KeyFor(env, a.event, data), s.clock)
    requires env.preflight(data).Sniffed?
    ensures Inv(env, IngestFresh(env, s, a, data, env.sha256(data), env.preflight(data)).0)
  {
    hide Inv;
    var sniff := env.preflight(data);
    if PiiClears(env, sniff.columns) {
      OwnRowKeeps(env, s, a, data, Some(sniff.rowCount), RECEIVED);
      var at := s.clock + a.beforeInsert;
      var row := BronzeRow(a, data, env.sha256(data), Some(sniff.rowCount), at, RECEIVED);
      var (rows, ok) := InsertRow(s.rows, row, a.insert);
      var s1 := s.(rows := rows, clock := at);
      if ok {
        assert s1.rows[|s.rows|] == row;
        AnnounceKeeps(env, s1, a, |s.rows|, data, Ingested);
        assert IngestFresh(env, s, a, data, env.sha256(data), sniff)
            == Announce(s1, a, row.trace, row.id, row.receivedAt, sniff.delimiter, Ingested);
      } else {
        assert IngestFresh(env, s, a, data, env.sha256(data), sniff).0 == s1;
      }
    }
  }

  lemma HandlePreflightFailureKeeps(env: Env, s: State, a: Attempt, data: Bytes)
    requires Inv(env, s)
    requires WindowEmpty(s.rows, KeyFor(env, a.event, data), s.clock)
    requires env.preflight(data).Rejected?
    ensures Inv(env, HandlePreflightFailure(s, a, data, env.sha256(data)).0)
  {
    hide Inv;
    OwnRowKeeps(env, s, a, data, None, FAILED);
  }

  /** The part of `process` after a successful lookup. */
  lemma AfterLookupKeeps(env: Env, s: State, a: Attempt, data: Bytes)
    requires CollisionFree(env) && Inv(env, s)
    ensures Inv(env, AfterLookup(env, s, a, data).0)
  {
    hide Inv;
    var key := KeyFor(env, a.event, data);
    var prior := FindPrior(s.rows, key, s.clock - WINDOW);
    if prior.Some? {
      HandleDuplicateKeeps(env, s, a, prior.value, data);
      assert AfterLookup(env, s, a, data) == HandleDuplicate(env, s, a, prior.value, data);
    } else if env.preflight(data).Rejected? {
      HandlePreflightFailureKeeps(env, s, a, data);
      assert AfterLookup(env, s, a, data) == HandlePreflightFailure(s, a, data, key.sha);
    } else {
      IngestFreshKeeps(env, s, a, data);
      assert AfterLookup(env, s, a, data) == IngestFresh(env, s, a, data, key.sha, env.preflight(data));
    }
  }

  /** One attempt, with any faults, keeps the invariant. */
  lemma ProcessKeeps(env: Env, s: State, a: Attempt)
    requires CollisionFree(env) && Inv(env, s)
    ensures Inv(env, Process(env, s, a).0)
  {
    hide Inv;
    var s1 := s.(clock := s.clock + a.beforeLookup);
    TickKeeps(env, s, s1);
    ProcessStages(env, s, a);
    if ReachesLookup(env, a) && a.lookupOk {
      AfterLookupKeeps(env, s1, a, a.download.value);
    }
  }

  /** Any run, from any state that has the invariant, keeps it. */
  lemma {:induction false} RunKeeps(env: Env, s: State, run: seq<Attempt>)
    requires CollisionFree(env) && Inv(env, s)
    ensures Inv(env, Exec(env, s, run))
  {
    hide Inv;
    if run != [] {
      RunKeeps(env, s, run[..|run| - 1]);
      ProcessKeeps(env, Exec(env, s, run[..|run| - 1]), run[|run| - 1]);
    }
  }

  /** Every state of every run from an initial state satisfies the invariant. */
  lemma ReachableInv(env: Env, s0: State, run: seq<Attempt>)
    requires CollisionFree(env) && Initial(s0)
    ensures Inv(env, Exec(env, s0, run))
  {
    hide Inv;
    InitialInv(env, s0);
    RunKeeps(env, s0, run);
  }
}
