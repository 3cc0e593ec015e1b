/** The worker in its own, imperative form: the bronze table and the topic are updated in place, one
    I/O call at a time, and each method is tied to the specification functions of module Ingest. */
module IngestWorker {
  import opened Wrappers
  import opened Text
  import opened Uuids
  import opened Ingest
  import opened IngestInvariant
  import opened IngestTheorems
  import opened IngestConvergence

  /** `bronze.data_ingress_events` behind the worker's three statements. */
  class BronzeTable {
    var rows: seq<Row>

    constructor (rows: seq<Row>)
      ensures this.rows == rows
    {
      this.rows := rows;
    }

    /** The dedup query, as a scan that keeps the most recent match. */
    method Lookup(k: Key, cutoff: Instant) returns (prior: Option<Row>)
      ensures prior == FindPrior(rows, k, cutoff)
    {
      prior := None;
      for i := 0 to |rows|
        invariant prior == FindPrior(rows[..i], k, cutoff)
      {
        assert rows[..i + 1][..i] == rows[..i];
        if InWindow(rows[i], k, cutoff) && (prior.None? || rows[i].receivedAt >= prior.value.receivedAt) {
          prior := Some(rows[i]);
        }
      }
      assert rows[..|rows|] == rows;
    }

    method Insert(row: Row, fate: Fate) returns (ok: bool)
      modifies this
      ensures (rows, ok) == InsertRow(old(rows), row, fate)
    {
      if fate.FailsBefore? { return false; }
      for i := 0 to |rows|
        invariant rows == old(rows)
        invariant forall j :: 0 <= j < i ==> rows[j].id != row.id
      {
        if rows[i].id == row.id { return false; }
      }
      rows := rows + [row];
      ok := fate.Completes?;
    }

    method Mark(tenant: Uuid, id: Uuid, at: Instant)
      modifies this
      ensures rows == MarkPublished(old(rows), tenant, id, at)
    {
      for i := 0 to |rows|
        invariant |rows| == |old(rows)|
        invariant forall j :: i <= j < |rows| ==> rows[j] == old(rows)[j]
        invariant forall j :: 0 <= j < i ==> rows[j] == MarkPublished(old(rows), tenant, id, at)[j]
      {
        if rows[i].tenant == tenant && rows[i].id == id {
          rows := rows[i := Stamped(rows[i], at)];
        }
      }
    }
  }

  /** The `ingress.ready` topic. */
  class Topic {
    var log: seq<Envelope>

    constructor ()
      ensures log == []
    {
      log := [];
    }

    method Publish(e: Envelope, fate: Fate) returns (ok: bool)
      modifies this
      ensures log == if fate.FailsBefore? then old(log) else old(log) + [e]
      ensures ok == fate.Completes?
    {
      if !fate.FailsBefore? { log := log + [e]; }
      ok := fate.Completes?;
    }
  }

  class IngestPipeline {
    const env: Env
    const bronze: BronzeTable
    const topic: Topic
    var clock: Instant

    constructor (env: Env, bronze: BronzeTable, topic: Topic, clock: Instant)
      ensures this.env == env && this.bronze == bronze && this.topic == topic && this.clock == clock
    {
      this.env, this.bronze, this.topic, this.clock := env, bronze, topic, clock;
    }

    /** The durable state as a value. */
    function View(): State
      reads this, bronze, topic
    {
      State(bronze.rows, topic.log, clock)
    }

    /** `IngestPipeline.process`, stage by stage; every early return is a raised exception. */
    method ProcessEvent(a: Attempt) returns (o: Outcome)
      modifies this, bronze, topic
      ensures (View(), o) == Process(env, old(View()), a)
    {
      hide CrossCheck, Blank, FindPrior;
      // 1. path cross-check
      var check := CrossCheck(env, a.event);
      if check.Err? { return Raised(check.error); }
      // 2. read and hash
      if a.download.None? { return Raised(IoFailure); }
      var data := a.download.value;
      var sha := env.sha256(data);
      // 3. dedup lookup
      if Blank(a.event.session) || Blank(sha) { return Raised(ContractFailure); }
      clock := clock + a.beforeLookup;
      if !a.lookupOk { return Raised(IoFailure); }
      ghost var looked := View();
      var prior := bronze.Lookup(Key(a.event.tenant, a.event.session, sha), clock - WINDOW);
      if prior.Some? {
        o := Duplicate(a, prior.value, data);
        return;
      }
      // 4. structural preflight
      var sniff := env.preflight(data);
      if sniff.Rejected? {
        clock := clock + a.beforeInsert;
        var ok := bronze.Insert(BronzeRow(a, data, sha, None, clock, FAILED), a.insert);
        o := if ok then Done(PreflightFailed, a.event.trace, a.newId) else Raised(IoFailure);
        assert (View(), o) == HandlePreflightFailure(looked, a, data, sha);
        return;
      }
      o := Fresh(a, data, sha, sniff);
    }

    /** Stages 5 to 7. */
    method Fresh(a: Attempt, data: Bytes, sha: string, sniff: Sniff) returns (o: Outcome)
      requires sniff.Sniffed?
      modifies this, bronze, topic
      ensures (View(), o) == IngestFresh(env, old(View()), a, data, sha, sniff)
    {
      // 5. PII gate, before the bronze write
      if !(env.detectPii(sniff.columns) == {} || env.piiBackend) { return Raised(PiiBlocked); }
      // 6. bronze write
      clock := clock + a.beforeInsert;
      var receivedAt := clock;
      var ok := bronze.Insert(BronzeRow(a, data, sha, Some(sniff.rowCount), receivedAt, RECEIVED), a.insert);
      if !ok { return Raised(IoFailure); }
      // 7. publish and mark
      o := PublishThenMark(a, a.event.trace, a.newId, receivedAt, sniff.delimiter, Ingested);
    }

    /** `_handle_duplicate`. */
    method Duplicate(a: Attempt, prior: Row, data: Bytes) returns (o: Outcome)
      modifies this, bronze, topic
      ensures (View(), o) == HandleDuplicate(env, old(View()), a, prior, data)
    {
      if prior.status == FAILED || IsPublished(prior) {
        return Done(DuplicateNoop, prior.trace, prior.id);
      }
      var sniff := env.preflight(data);
      if sniff.Rejected? { return Raised(PreflightFailure); }
      o := PublishThenMark(a, prior.trace, prior.id, prior.receivedAt, sniff.delimiter, DuplicateResumed);
    }

    /** Build the envelope, publish it, then stamp the row. */
    method PublishThenMark(a: Attempt, trace: Uuid, id: Uuid, receivedAt: Instant, delimiter: string, d: Disposition)
      returns (o: Outcome)
      modifies this, bronze, topic
      ensures (View(), o) == Announce(old(View()), a, trace, id, receivedAt, delimiter, d)
    {
      var envelope := BuildEnvelope(a.event, trace, id, receivedAt, delimiter);
      if envelope.Err? { return Raised(envelope.error); }
      var sent := topic.Publish(envelope.value, a.publish);
      if !sent { return Raised(IoFailure); }
      clock := clock + a.beforeMark;
      if a.mark.FailsBefore? { return Raised(IoFailure); }
      bronze.Mark(a.event.tenant, id, clock);
      o := if a.mark.Completes? then Done(d, trace, id) else Raised(IoFailure);
    }
  }

  // ---------------------------------------------------------------- the subscriber

  /** Some message of the batch makes the parse raise what nobody catches. */
  predicate Stops(ds: seq<Delivery>) {
    exists i :: 0 <= i < |ds| && Read(ds[i].body).Escapes?
  }

  lemma StopsSnoc(ds: seq<Delivery>)
    requires ds != []
    ensures Stops(ds) <==> Stops(ds[..|ds| - 1]) || Read(ds[|ds| - 1].body).Escapes?
  {
    hide Read;
    var front := ds[..|ds| - 1];
    if i :| 0 <= i < |ds| && Read(ds[i].body).Escapes? {
      if i < |front| { assert front[i] == ds[i]; }
    }
    if i :| 0 <= i < |front| && Read(front[i].body).Escapes? {
      assert ds[i] == front[i];
    }
  }

  /** The state after a pass over a batch; nothing happens after the first stop. */
  function PollState(env: Env, s: State, ds: seq<Delivery>): State {
    if ds == [] then s
    else
      var front := ds[..|ds| - 1];
      var mid := PollState(env, s, front);
      if Stops(front) then mid else ProcessMessage(env, mid, ds[|ds| - 1]).0
  }

  /** The decision for the i-th delivery of a batch, if the pass gets to it. */
  function DecisionAt(env: Env, s: State, ds: seq<Delivery>, i: nat): Option<Decision>
    requires i < |ds|
  {
    if Stops(ds[..i]) then None else ProcessMessage(env, PollState(env, s, ds[..i]), ds[i]).1
  }

  /** The ack ids, in order, of the deliveries that got decision `d`. */
  function IdsWith(env: Env, s: State, ds: seq<Delivery>, d: Decision): seq<string> {
    if ds == [] then []
    else
      var front := ds[..|ds| - 1];
      var last := ds[|ds| - 1];
      IdsWith(env, s, front, d)
      + (if ProcessMessage(env, PollState(env, s, front), last).1 == Some(d) then [last.ackId] else [])
  }

  /** The ids the pass sends with decision `d`. It sends after the last message, so a stop drops both
      lists. */
  function Sent(env: Env, s: State, ds: seq<Delivery>, d: Decision): seq<string> {
    if Stops(ds) then [] else IdsWith(env, s, ds, d)
  }

  function AckIds(ds: seq<Delivery>): (ids: seq<string>)
    ensures |ids| == |ds|
  {
    if ds == [] then [] else AckIds(ds[..|ds| - 1]) + [ds[|ds| - 1].ackId]
  }

  /** `process_message`; `None` where it raises. */
  method Route(pipeline: IngestPipeline, d: Delivery) returns (decision: Option<Decision>)
    modifies pipeline, pipeline.bronze, pipeline.topic
    ensures (pipeline.View(), decision) == ProcessMessage(pipeline.env, old(pipeline.View()), d)
  {
    hide Process;
    var message := Read(d.body);
    if message.Escapes? { return None; }
    if message.Malformed? { return Some(Ack); }
    var o := pipeline.ProcessEvent(d.attempt.(event := message.event));
    if o.Raised? && !(o.failure.ContractFailure? || o.failure.PathMismatch? || o.failure.PiiBlocked?) {
      return Some(Nack);
    }
    decision := Some(Ack);
  }

  /** `Subscriber.poll_once`: one pass over the received messages, then the two lists are sent. */
  method PollOnce(pipeline: IngestPipeline, received: seq<Delivery>)
    returns (raised: bool, ackIds: seq<string>, nackIds: seq<string>)
    modifies pipeline, pipeline.bronze, pipeline.topic
    ensures pipeline.View() == PollState(pipeline.env, old(pipeline.View()), received)
    ensures raised <==> Stops(received)
    ensures ackIds == Sent(pipeline.env, old(pipeline.View()), received, Ack)
    ensures nackIds == Sent(pipeline.env, old(pipeline.View()), received, Nack)
  {
    hide ProcessMessage, Read;
    ackIds, nackIds := [], [];
    ghost var s := pipeline.View();
    for i := 0 to |received|
      invariant !Stops(received[..i])
      invariant pipeline.View() == PollState(pipeline.env, s, received[..i])
      invariant ackIds == IdsWith(pipeline.env, s, received[..i], Ack)
      invariant nackIds == IdsWith(pipeline.env, s, received[..i], Nack)
    {
      assert received[..i + 1][..i] == received[..i];
      var decision := Route(pipeline, received[i]);
      UndecidedMeansEscapes(pipeline.env, PollState(pipeline.env, s, received[..i]), received[i]);
      StopsSnoc(received[..i + 1]);
      if decision.None? {
        WorkBeforeStopStays(pipeline.env, s, received, i);
        return true, [], [];
      }
      if decision == Some(Ack) {
        ackIds := ackIds + [received[i].ackId];
      } else {
        nackIds := nackIds + [received[i].ackId];
      }
    }
    assert received[..|received|] == received;
    raised := false;
  }

  lemma UndecidedMeansEscapes(env: Env, s: State, d: Delivery)
    ensures ProcessMessage(env, s, d).1.None? <==> Read(d.body).Escapes?
    ensures Read(d.body).Escapes? ==> ProcessMessage(env, s, d).0 == s
    ensures !Read(d.body).Escapes? ==> ProcessMessage(env, s, d).1 == Some(Ack) || ProcessMessage(env, s, d).1 == Some(Nack)
  {
    hide Process, Read;
  }

  /** What the pass did before its first stop stays done, and nothing is done after it. */
  lemma {:induction false} WorkBeforeStopStays(env: Env, s: State, ds: seq<Delivery>, n: nat)
    requires n < |ds| && Read(ds[n].body).Escapes? && !Stops(ds[..n])
    ensures PollState(env, s, ds) == PollState(env, s, ds[..n])
    decreases |ds|
  {
    hide ProcessMessage, Read;
    var front := ds[..|ds| - 1];
    if n == |ds| - 1 {
      UndecidedMeansEscapes(env, PollState(env, s, front), ds[n]);
    } else {
      assert front[n] == ds[n] && front[..n] == ds[..n];
      WorkBeforeStopStays(env, s, front, n);
    }
  }

  lemma {:induction false} IdsCovered(env: Env, s: State, ds: seq<Delivery>)
    requires !Stops(ds)
    ensures multiset(IdsWith(env, s, ds, Ack)) + multiset(IdsWith(env, s, ds, Nack)) == multiset(AckIds(ds))
  {
    hide ProcessMessage, Read, Stops;
    if ds != [] {
      var front, last := ds[..|ds| - 1], ds[|ds| - 1];
      StopsSnoc(ds);
      IdsCovered(env, s, front);
      UndecidedMeansEscapes(env, PollState(env, s, front), last);
    }
  }

  /** Every received ack id is sent in exactly one of the two lists, as often as it was received, if and
      only if no message of the batch stops the pass; otherwise no id is sent at all. */
  lemma {:induction false} EveryIdDecidedOnce(env: Env, s: State, ds: seq<Delivery>)
    ensures multiset(Sent(env, s, ds, Ack)) + multiset(Sent(env, s, ds, Nack)) == multiset(AckIds(ds)) <==> !Stops(ds)
    ensures Stops(ds) ==> Sent(env, s, ds, Ack) == [] && Sent(env, s, ds, Nack) == []
  {
    if Stops(ds) {
      assert AckIds(ds)[0] in multiset(AckIds(ds));
    } else {
      IdsCovered(env, s, ds);
    }
  }

  /** With distinct ack ids, each id is in exactly one of the sent lists, if and only if nothing stops
      the pass. */
  lemma AckedOrNackedNeverBoth(env: Env, s: State, ds: seq<Delivery>, id: string)
    requires id in AckIds(ds)
    requires forall i, j :: 0 <= i < j < |AckIds(ds)| ==> AckIds(ds)[i] != AckIds(ds)[j]
    ensures (id in Sent(env, s, ds, Ack) <==> id !in Sent(env, s, ds, Nack)) <==> !Stops(ds)
  {
    EveryIdDecidedOnce(env, s, ds);
    if !Stops(ds) {
      var acks, nacks, all := Sent(env, s, ds, Ack), Sent(env, s, ds, Nack), AckIds(ds);
      assert multiset(all)[id] == multiset(acks)[id] + multiset(nacks)[id];
      CountOfDistinct(all, id);
      assert (id in acks <==> multiset(acks)[id] > 0) && (id in nacks <==> multiset(nacks)[id] > 0);
    }
  }

  lemma {:induction false} CountOfDistinct(ids: seq<string>, id: string)
    requires forall i, j :: 0 <= i < j < |ids| ==> ids[i] != ids[j]
    ensures multiset(ids)[id] == if id in ids then 1 else 0
  {
    if ids != [] {
      var front, last := ids[..|ids| - 1], ids[|ids| - 1];
      CountOfDistinct(front, id);
      assert ids == front + [last];
    }
  }

  /** The failing input: a `received_ts` without a zone, or one that leaves the calendar in UTC, whatever
      the other fields and the rest of the batch. Every pass that receives it, from every state, raises and
      decides nothing, the messages it had already processed included. */
  lemma ZonelessStopsThePass(env: Env, s: State, before: seq<Delivery>, d: Delivery, after: seq<Delivery>)
    requires d.body.Object? && (d.body.receivedTs == Some(Zoneless) || d.body.receivedTs == Some(Zoned(0, 3_600_000_000)))
    ensures
      var ds := before + [d] + after;
      && Stops(ds) && Sent(env, s, ds, Ack) == [] && Sent(env, s, ds, Nack) == []
      && (!Stops(before) ==> PollState(env, s, ds) == PollState(env, s, before))
  {
    var ds := before + [d] + after;
    assert ds[|before|] == d && ds[..|before|] == before;
    assert Read(ds[|before|].body).Escapes?;
    if !Stops(before) { WorkBeforeStopStays(env, s, ds, |before|); }
  }

  lemma {:induction false} PollKeeps(env: Env, s: State, ds: seq<Delivery>)
    requires CollisionFree(env) && Inv(env, s)
    ensures Inv(env, PollState(env, s, ds))
  {
    hide Inv, Process, Read;
    if ds != [] {
      var d := ds[|ds| - 1];
      PollKeeps(env, s, ds[..|ds| - 1]);
      if Read(d.body).Parsed? {
        ProcessKeeps(env, PollState(env, s, ds[..|ds| - 1]), d.attempt.(event := Read(d.body).event));
      }
    }
  }

  /** A concluded row of `key` is in the table. */
  predicate HasConcluded(rows: seq<Row>, key: Key) {
    exists i :: 0 <= i < |rows| && HasKey(rows[i], key) && Concluded(rows[i])
  }

  lemma MessageKeepsConclusions(env: Env, s: State, d: Delivery, key: Key)
    requires DistinctIds(s.rows) && HasConcluded(s.rows, key)
    ensures HasConcluded(ProcessMessage(env, s, d).0.rows, key)
  {
    hide Process, Read;
    var i :| 0 <= i < |s.rows| && HasKey(s.rows[i], key) && Concluded(s.rows[i]);
    if Read(d.body).Parsed? {
      var a := d.attempt.(event := Read(d.body).event);
      AttemptFollows(env, s, a, i);
      assert HasKey(Process(env, s, a).0.rows[i], key) && Concluded(Process(env, s, a).0.rows[i]);
    }
  }

  lemma {:induction false} PollKeepsConclusions(env: Env, s: State, ds: seq<Delivery>, n: nat, key: Key)
    requires CollisionFree(env) && Inv(env, s) && n <= |ds|
    requires HasConcluded(PollState(env, s, ds[..n]).rows, key)
    ensures HasConcluded(PollState(env, s, ds).rows, key)
  {
    hide Inv, ProcessMessage, HasConcluded, Read;
    if n == |ds| {
      assert ds[..n] == ds;
    } else {
      var front, d := ds[..|ds| - 1], ds[|ds| - 1];
      assert front[..n] == ds[..n];
      PollKeepsConclusions(env, s, front, n, key);
      PollKeeps(env, s, front);
      var mid := PollState(env, s, front);
      InvDistinct(env, mid);
      MessageKeepsConclusions(env, mid, d, key);
    }
  }

  /** Over a whole batch, stopped or not: a well-formed message whose decision was to acknowledge it was
      refused for a terminal reason, or at the end of the pass the table holds a concluded row of its key. */
  lemma PollNeverLosesData(env: Env, s: State, ds: seq<Delivery>, n: nat)
    requires CollisionFree(env) && HashNeverBlank(env) && Inv(env, s) && n < |ds|
    requires Read(ds[n].body).Parsed? && DecisionAt(env, s, ds, n) == Some(Ack)
    ensures
      var a := ds[n].attempt.(event := Read(ds[n].body).event);
      || CrossCheck(env, a.event) == Err(PathMismatch)
      || (a.download.Some? && env.preflight(a.download.value).Sniffed?
          && !PiiClears(env, env.preflight(a.download.value).columns))
      || (a.download.Some? && HasConcluded(PollState(env, s, ds).rows, KeyFor(env, a.event, a.download.value)))
  {
    hide Inv, Process, CrossCheck, Blank, PiiClears, Concluded, Read;
    var a := ds[n].attempt.(event := Read(ds[n].body).event);
    var before := PollState(env, s, ds[..n]);
    PollKeeps(env, s, ds[..n]);
    InvDistinct(env, before);
    NoAckLosesData(env, before, ds[n]);
    var (after, o) := Process(env, before, a);
    assert ds[..n + 1][..n] == ds[..n];
    assert PollState(env, s, ds[..n + 1]) == after;
    if a.download.Some? && RowConcludes(after.rows, o, KeyFor(env, a.event, a.download.value)) {
      var key := KeyFor(env, a.event, a.download.value);
      var r :| r in after.rows && HasKey(r, key) && Concluded(r);
      var i :| 0 <= i < |after.rows| && after.rows[i] == r;
      assert HasConcluded(after.rows, key);
      PollKeepsConclusions(env, s, ds, n + 1, key);
    }
  }
}
