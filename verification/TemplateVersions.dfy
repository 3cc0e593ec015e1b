/** Version numbers of mapping templates under concurrent inserts (migration 0005).

    The BEFORE INSERT trigger reads MAX + 1 over the rows the inserting session can see; the unique
    key over (tenant, source, template, version) arbitrates races at commit. */
module TemplateVersions {
  import opened Wrappers
  import opened Uuids
  import Rls

  datatype Lineage = Lineage(tenant: Uuid, source: string, template: Uuid)

  datatype Version = Version(lineage: Lineage, number: nat)

  /** COALESCE(MAX(version), 0) over all rows of a lineage. */
  function MaxVersion(rows: seq<Version>, l: Lineage): (m: nat) {
    if rows == [] then 0
    else
      var front, last := rows[..|rows| - 1], rows[|rows| - 1];
      var m := MaxVersion(front, l);
      if last.lineage == l && last.number > m then last.number else m
  }

  lemma {:induction false} MaxIsMax(rows: seq<Version>, l: Lineage)
    ensures forall v :: v in rows && v.lineage == l ==> v.number <= MaxVersion(rows, l)
    ensures MaxVersion(rows, l) == 0 || Version(l, MaxVersion(rows, l)) in rows
  {
    if rows != [] {
      var front, last := rows[..|rows| - 1], rows[|rows| - 1];
      MaxIsMax(front, l);
      assert rows == front + [last];
      assert last == Version(last.lineage, last.number);
    }
  }

  /** The same scan, under the scope's row-level filter. */
  function VisibleMax(g: Rls.Scope, rows: seq<Version>, l: Lineage): nat {
    if rows == [] then 0
    else
      var front, last := rows[..|rows| - 1], rows[|rows| - 1];
      var m := VisibleMax(g, front, l);
      if last.lineage == l && Sees(g, last) && last.number > m then last.number else m
  }

  predicate Sees(g: Rls.Scope, v: Version) {
    Rls.Visible(g, Rls.Row(v.lineage.tenant, ""))
  }

  /** WITH CHECK on the new row. */
  predicate MayInsert(g: Rls.Scope, l: Lineage) {
    Rls.Writable(g, Rls.Row(l.tenant, ""))
  }

  /** For every insert that passes WITH CHECK, the filtered MAX is the unfiltered one. */
  lemma {:induction false} FilteredMaxIsTrueMax(g: Rls.Scope, rows: seq<Version>, l: Lineage)
    requires MayInsert(g, l)
    ensures VisibleMax(g, rows, l) == MaxVersion(rows, l)
  {
    if rows != [] {
      FilteredMaxIsTrueMax(g, rows[..|rows| - 1], l);
    }
  }

  /** A tenant session reads no version at all of another tenant's lineage. */
  lemma {:induction false} ForeignLineageLooksEmpty(g: Rls.Scope, rows: seq<Version>, l: Lineage)
    requires !MayInsert(g, l) && !g.platform
    ensures VisibleMax(g, rows, l) == 0
  {
    if rows != [] {
      ForeignLineageLooksEmpty(g, rows[..|rows| - 1], l);
    }
  }

  /** The trigger: a NULL or zero version is replaced by the visible MAX + 1. */
  function Assigned(g: Rls.Scope, rows: seq<Version>, l: Lineage, given: Option<nat>): nat {
    if given.None? || given.value == 0 then VisibleMax(g, rows, l) + 1 else given.value
  }

  /** The trigger body as a scan over the rows. */
  method SetVersionSeq(g: Rls.Scope, rows: seq<Version>, l: Lineage, given: Option<nat>) returns (number: nat)
    ensures number == Assigned(g, rows, l, given)
    ensures (given.None? || given.value == 0) && MayInsert(g, l) ==>
              && Version(l, number) !in rows
              && (number == 1 || Version(l, number - 1) in rows)
  {
    if given.Some? && given.value != 0 { return given.value; }
    var m := 0;
    for i := 0 to |rows|
      invariant m == VisibleMax(g, rows[..i], l)
    {
      assert rows[..i + 1][..i] == rows[..i];
      if rows[i].lineage == l && Sees(g, rows[i]) && rows[i].number > m { m := rows[i].number; }
    }
    assert rows[..|rows|] == rows;
    number := m + 1;
    if MayInsert(g, l) {
      FilteredMaxIsTrueMax(g, rows, l);
      MaxIsMax(rows, l);
    }
  }

  // ---------------------------------------------------------------- interleaved transactions

  /** An open transaction: its scope and the rows it has inserted so far. */
  datatype Txn = Txn(scope: Rls.Scope, own: seq<Version>)

  datatype State = State(committed: seq<Version>, open: map<nat, Txn>)

  datatype Step =
    | Begin(sid: nat, scope: Rls.Scope)
    | Insert(sid: nat, lineage: Lineage, given: Option<nat>)
    | Commit(sid: nat)
    | Abort(sid: nat)

  predicate Disjoint(a: seq<Version>, b: seq<Version>) {
    forall i, j :: 0 <= i < |a| && 0 <= j < |b| ==> a[i] != b[j]
  }

  predicate NoRepeat(rows: seq<Version>) {
    forall i, j :: 0 <= i < j < |rows| ==> rows[i] != rows[j]
  }

  /** One step of one session. A statement reads what is committed by then plus its own rows; a row
      the policy refuses, or a key that is taken by commit time, aborts the transaction. */
  function Next(s: State, step: Step): State {
    match step
    case Begin(sid, scope) =>
      if sid in s.open then s else s.(open := s.open[sid := Txn(scope, [])])
    case Insert(sid, l, given) =>
      if sid !in s.open then s
      else
        var t := s.open[sid];
        if !MayInsert(t.scope, l) then s.(open := s.open - {sid})
        else
          var v := Version(l, Assigned(t.scope, s.committed + t.own, l, given));
          s.(open := s.open[sid := Txn(t.scope, t.own + [v])])
    case Commit(sid) =>
      if sid !in s.open then s
      else
        var own := s.open[sid].own;
        State(if Disjoint(own, s.committed) && NoRepeat(own) then s.committed + own else s.committed,
              s.open - {sid})
    case Abort(sid) => s.(open := s.open - {sid})
  }

  function RunSteps(s: State, steps: seq<Step>): State {
    if steps == [] then s
    else Next(RunSteps(s, steps[..|steps| - 1]), steps[|steps| - 1])
  }

  /** No insert names its own version. */
  predicate Automatic(steps: seq<Step>) {
    forall i :: 0 <= i < |steps| && steps[i].Insert? ==> steps[i].given == None || steps[i].given == Some(0)
  }

  /** The committed versions of `l` are exactly 1..n, each once. */
  predicate Dense(rows: seq<Version>, l: Lineage) {
    && (forall k :: 1 <= k <= MaxVersion(rows, l) ==> Version(l, k) in rows)
    && Version(l, 0) !in rows
  }

  function Bigger(a: nat, b: nat): nat { if a > b then a else b }

  /** A transaction's rows climb without gaps above what is committed and what it already has. */
  predicate Climbs(committed: seq<Version>, own: seq<Version>) {
    forall i :: 0 <= i < |own| ==>
      var l := own[i].lineage;
      MaxVersion(own[..i], l) < own[i].number <= Bigger(MaxVersion(committed, l), MaxVersion(own[..i], l)) + 1
  }

  ghost predicate Inv(s: State) {
    && NoRepeat(s.committed)
    && (forall l :: Dense(s.committed, l))
    && (forall sid :: sid in s.open ==> Climbs(s.committed, s.open[sid].own))
  }

  lemma {:induction false} MaxAppend(a: seq<Version>, b: seq<Version>, l: Lineage)
    ensures MaxVersion(a + b, l) == Bigger(MaxVersion(a, l), MaxVersion(b, l))
  {
    if b == [] {
      assert a + b == a;
    } else {
      var front, last := b[..|b| - 1], b[|b| - 1];
      MaxAppend(a, front, l);
      MaxSnoc(a + front, last, l);
      MaxSnoc(front, last, l);
      assert a + b == (a + front) + [last] && b == front + [last];
    }
  }

  lemma ClimbsWithMore(committed: seq<Version>, more: seq<Version>, own: seq<Version>)
    requires Climbs(committed, own)
    ensures Climbs(committed + more, own)
  {
    forall i | 0 <= i < |own|
      ensures
        var l := own[i].lineage;
        MaxVersion(own[..i], l) < own[i].number <= Bigger(MaxVersion(committed + more, l), MaxVersion(own[..i], l)) + 1
    {
      MaxAppend(committed, more, own[i].lineage);
    }
  }

  lemma InsertClimbs(committed: seq<Version>, t: Txn, l: Lineage, given: Option<nat>)
    requires Climbs(committed, t.own) && MayInsert(t.scope, l)
    requires given == None || given == Some(0)
    ensures Climbs(committed, t.own + [Version(l, Assigned(t.scope, committed + t.own, l, given))])
  {
    hide MaxVersion, VisibleMax;
    var v := Version(l, Assigned(t.scope, committed + t.own, l, given));
    var own := t.own + [v];
    FilteredMaxIsTrueMax(t.scope, committed + t.own, l);
    MaxAppend(committed, t.own, l);
    forall i | 0 <= i < |own|
      ensures
        var l := own[i].lineage;
        MaxVersion(own[..i], l) < own[i].number <= Bigger(MaxVersion(committed, l), MaxVersion(own[..i], l)) + 1
    {
      if i < |t.own| {
        assert own[..i] == t.own[..i] && own[i] == t.own[i];
      } else {
        assert own[..i] == t.own;
      }
    }
  }

  lemma MaxSnoc(rows: seq<Version>, v: Version, l: Lineage)
    ensures MaxVersion(rows + [v], l) == Bigger(MaxVersion(rows, l), if v.lineage == l then v.number else 0)
  {
    assert (rows + [v])[..|rows|] == rows;
  }

  /** Appending the successor of the maximum keeps a lineage dense; appending anything else does not. */
  lemma DenseAfterAppend(rows: seq<Version>, v: Version)
    requires Dense(rows, v.lineage)
    ensures Dense(rows + [v], v.lineage) && v !in rows <==> v.number == MaxVersion(rows, v.lineage) + 1
  {
    hide MaxVersion;
    var l, m := v.lineage, MaxVersion(rows, v.lineage);
    MaxSnoc(rows, v, l);
    MaxIsMax(rows, l);
    MaxIsMax(rows + [v], l);
    if v.number > m + 1 {
      assert Version(l, m + 1) !in rows + [v];
    } else if v.number == m + 1 {
      assert v !in rows;
      forall k | 1 <= k <= MaxVersion(rows + [v], l) ensures Version(l, k) in rows + [v] {
        if k <= m { assert Version(l, k) in rows; }
      }
    } else if v.number > 0 {
      assert Version(l, v.number) in rows;
    } else {
      assert v in rows + [v];
    }
  }

  lemma DenseElsewhere(rows: seq<Version>, v: Version, l: Lineage)
    requires Dense(rows, l) && v.lineage != l
    ensures Dense(rows + [v], l)
  {
    hide MaxVersion;
    MaxSnoc(rows, v, l);
    forall k | 1 <= k <= MaxVersion(rows + [v], l) ensures Version(l, k) in rows + [v] {
      assert Version(l, k) in rows;
    }
  }

  /** Committing a climbing transaction whose keys are all free keeps every lineage dense. */
  lemma {:induction false} CommitDense(committed: seq<Version>, own: seq<Version>)
    requires NoRepeat(committed) && forall l :: Dense(committed, l)
    requires Climbs(committed, own) && Disjoint(own, committed)
    ensures NoRepeat(committed + own) && forall l :: Dense(committed + own, l)
  {
    hide Dense, MaxVersion;
    if own == [] {
      assert committed + own == committed;
    } else {
      var front, v := own[..|own| - 1], own[|own| - 1];
      assert own == front + [v];
      ClimbsFront(committed, front, v);
      assert committed + own == (committed + front) + [v];
      CommitDense(committed, front);
      TopIsNext(committed, front, v);
      DenseAfterAppend(committed + front, v);
      NoRepeatSnoc(committed + front, v);
      forall l ensures Dense((committed + front) + [v], l) {
        if l != v.lineage { DenseElsewhere(committed + front, v, l); }
      }
    }
  }

  lemma ClimbsFront(committed: seq<Version>, front: seq<Version>, v: Version)
    requires Climbs(committed, front + [v])
    ensures Climbs(committed, front)
  {
    var own := front + [v];
    assert forall i :: 0 <= i < |front| ==> own[..i] == front[..i] && own[i] == front[i];
  }

  lemma NoRepeatSnoc(rows: seq<Version>, v: Version)
    requires NoRepeat(rows) && v !in rows
    ensures NoRepeat(rows + [v])
  {
  }

  lemma TopIsNext(committed: seq<Version>, front: seq<Version>, v: Version)
    requires Dense(committed + front, v.lineage)
    requires Climbs(committed, front + [v]) && Disjoint(front + [v], committed)
    ensures v.number == MaxVersion(committed + front, v.lineage) + 1
  {
    hide MaxVersion;
    var l, own := v.lineage, front + [v];
    assert own[..|front|] == front && own[|front|] == v;
    MaxIsMax(front, l);
    MaxAppend(committed, front, l);
    assert v !in committed;
    assert v !in front;
    assert v !in committed + front;
    assert v == Version(l, v.number);
  }

  lemma StepKeeps(s: State, step: Step)
    requires Inv(s)
    requires step.Insert? ==> step.given == None || step.given == Some(0)
    ensures Inv(Next(s, step))
  {
    match step
    case Begin(sid, scope) =>
    case Abort(sid) =>
    case Insert(sid, l, given) =>
      if sid in s.open && MayInsert(s.open[sid].scope, l) {
        InsertClimbs(s.committed, s.open[sid], l, given);
      }
    case Commit(sid) =>
      if sid in s.open {
        var own := s.open[sid].own;
        if Disjoint(own, s.committed) && NoRepeat(own) {
          CommitDense(s.committed, own);
          forall x | x in s.open && x != sid ensures Climbs(s.committed + own, s.open[x].own) {
            ClimbsWithMore(s.committed, own, s.open[x].own);
          }
        }
      }
  }

  lemma {:induction false} StepsKeep(s: State, steps: seq<Step>)
    requires Inv(s) && Automatic(steps)
    ensures Inv(RunSteps(s, steps))
  {
    if steps != [] {
      StepsKeep(s, steps[..|steps| - 1]);
      StepKeeps(RunSteps(s, steps[..|steps| - 1]), steps[|steps| - 1]);
    }
  }

  /** Over any interleaving of any number of sessions, with no explicit version and no deletion, the
      committed versions of every lineage are exactly 1..n: a number is there once if and only if it
      lies between 1 and the maximum. */
  lemma LineagesStayDense(steps: seq<Step>, l: Lineage, k: nat)
    requires Automatic(steps)
    ensures
      var rows := RunSteps(State([], map[]), steps).committed;
      && (Version(l, k) in rows <==> 1 <= k <= MaxVersion(rows, l))
      && NoRepeat(rows)
  {
    assert Inv(State([], map[]));
    StepsKeep(State([], map[]), steps);
    MaxIsMax(RunSteps(State([], map[]), steps).committed, l);
    assert Dense(RunSteps(State([], map[]), steps).committed, l);
  }

  // ---------------------------------------------------------------- what each step does

  /** None of the rows is committed, and no two of them are the same. */
  predicate KeysFree(committed: seq<Version>, own: seq<Version>) {
    && (forall v :: v in own ==> v !in committed)
    && (forall i, j :: 0 <= i < j < |own| ==> own[i] != own[j])
  }

  /** A commit ends its transaction. It adds exactly the transaction's rows, in order, if their keys are free,
      and nothing otherwise; no other transaction is touched. */
  lemma CommitDoes(s: State, sid: nat)
    requires sid in s.open
    ensures
      var own, s' := s.open[sid].own, Next(s, Commit(sid));
      && s'.committed == (if KeysFree(s.committed, own) then s.committed + own else s.committed)
      && s'.open == s.open - {sid}
  {
    var own := s.open[sid].own;
    if v :| v in own && v in s.committed {
      var i :| 0 <= i < |own| && own[i] == v;
      var j :| 0 <= j < |s.committed| && s.committed[j] == v;
      assert own[i] == s.committed[j];
    }
    if !Disjoint(own, s.committed) {
      var i, j :| 0 <= i < |own| && 0 <= j < |s.committed| && own[i] == s.committed[j];
      assert own[i] in own && own[i] in s.committed;
    }
  }

  /** The number an insert ends up with: its own if it names one, else one more than the highest of its lineage
      among the committed rows and the transaction's. */
  function Numbered(s: State, sid: nat, l: Lineage, given: Option<nat>): nat
    requires sid in s.open
  {
    if given.Some? && given.value != 0 then given.value else MaxVersion(s.committed + s.open[sid].own, l) + 1
  }

  /** An insert for the session's own tenant extends its transaction by exactly one row of that lineage; one for
      another tenant ends the transaction. Nothing is committed either way. */
  lemma InsertDoes(s: State, sid: nat, l: Lineage, given: Option<nat>)
    requires sid in s.open && !s.open[sid].scope.bypass
    ensures
      var t, s' := s.open[sid], Next(s, Insert(sid, l, given));
      && s'.committed == s.committed
      && s'.open == (if t.scope.tenant == Some(l.tenant)
                     then s.open[sid := Txn(t.scope, t.own + [Version(l, Numbered(s, sid, l, given))])]
                     else s.open - {sid})
  {
    var t := s.open[sid];
    if MayInsert(t.scope, l) { FilteredMaxIsTrueMax(t.scope, s.committed + t.own, l); }
  }

  /** Beginning opens an empty transaction, aborting drops one, and neither commits anything. */
  lemma BeginAndAbortDo(s: State, sid: nat, scope: Rls.Scope)
    ensures Next(s, Begin(sid, scope)) == if sid in s.open then s else State(s.committed, s.open[sid := Txn(scope, [])])
    ensures Next(s, Abort(sid)) == State(s.committed, s.open - {sid})
  {
  }

  lemma RunThree(s: State, a: Step, b: Step, c: Step)
    ensures RunSteps(s, [a, b, c]) == Next(Next(Next(s, a), b), c)
  {
    hide Next;
    assert [a][..0] == [];
    assert RunSteps(s, [a]) == Next(s, a);
    assert [a, b][..1] == [a];
    assert RunSteps(s, [a, b]) == Next(Next(s, a), b);
    assert [a, b, c][..2] == [a, b];
  }

  lemma NewestIsFree(committed: seq<Version>, l: Lineage)
    ensures KeysFree(committed, [Version(l, MaxVersion(committed, l) + 1)])
    ensures MaxVersion(committed + [Version(l, MaxVersion(committed, l) + 1)], l) == MaxVersion(committed, l) + 1
  {
    hide MaxVersion, KeysFree;
    var v := Version(l, MaxVersion(committed, l) + 1);
    MaxIsMax(committed, l);
    MaxSnoc(committed, v, l);
    assert v !in committed;
    OneIsFree(committed, v);
  }

  lemma OneIsFree(committed: seq<Version>, v: Version)
    requires v !in committed
    ensures KeysFree(committed, [v])
  {
  }

  /** With nobody in between, begin, insert and commit add the lineage's next version, and its maximum rises by
      one. */
  lemma UncontendedInsertCommits(s: State, sid: nat, l: Lineage)
    requires sid !in s.open
    ensures
      var g := Rls.Scope(false, Some(l.tenant));
      var s' := RunSteps(s, [Begin(sid, g), Insert(sid, l, None), Commit(sid)]);
      && s'.committed == s.committed + [Version(l, MaxVersion(s.committed, l) + 1)]
      && MaxVersion(s'.committed, l) == MaxVersion(s.committed, l) + 1
  {
    hide Next, MaxVersion, KeysFree;
    var g := Rls.Scope(false, Some(l.tenant));
    RunThree(s, Begin(sid, g), Insert(sid, l, None), Commit(sid));
    BeginAndAbortDo(s, sid, g);
    var s1 := Next(s, Begin(sid, g));
    InsertDoes(s1, sid, l, None);
    assert s.committed + [] == s.committed;
    CommitDoes(Next(s1, Insert(sid, l, None)), sid);
    NewestIsFree(s.committed, l);
    assert [] + [Version(l, MaxVersion(s.committed, l) + 1)] == [Version(l, MaxVersion(s.committed, l) + 1)];
  }

  /** Two sessions that read the same maximum: the first to commit gets the number, the second is refused. */
  lemma SecondOfTwoIsRefused(s: State, one: nat, two: nat, l: Lineage)
    requires one != two && one in s.open && two in s.open
    requires s.open[one].own == [Version(l, MaxVersion(s.committed, l) + 1)] == s.open[two].own
    ensures
      var s1 := Next(s, Commit(one));
      && s1.committed == s.committed + s.open[one].own
      && two in s1.open && Next(s1, Commit(two)).committed == s1.committed
  {
    hide Next, MaxVersion;
    CommitDoes(s, one);
    NewestIsFree(s.committed, l);
    var s1 := Next(s, Commit(one));
    var v := Version(l, MaxVersion(s.committed, l) + 1);
    assert v in s.open[two].own && v in s1.committed;
    CommitDoes(s1, two);
  }

  /** An explicit version breaks the promise unless it is the next one. */
  lemma ExplicitVersionMustBeNext(rows: seq<Version>, l: Lineage, given: nat)
    requires Dense(rows, l) && given != 0
    ensures
      var v := Version(l, Assigned(Rls.Scope(false, Some(l.tenant)), rows, l, Some(given)));
      Dense(rows + [v], l) && v !in rows <==> given == MaxVersion(rows, l) + 1
  {
    DenseAfterAppend(rows, Version(l, given));
  }
}
