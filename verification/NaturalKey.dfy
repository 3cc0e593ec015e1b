/** Migration 0004: the hot table's natural key moves from a NULLS NOT DISTINCT constraint to a unique
    index over COALESCE(segment, ''), made sound by two CHECKs that keep '' out of the segments. */
module NaturalKey {
  import opened Wrappers
  import opened Uuids
  import Rls

  datatype Row = Row(tenant: Uuid, store: Uuid, sku: string, variant: Option<string>, lot: Option<string>)

  /** COALESCE(segment, ''). */
  function Coalesce(x: Option<string>): string {
    if x.Some? then x.value else ""
  }

  /** Equal keys, NULLs counting as equal. */
  predicate SameKey(a: Row, b: Row) {
    a.tenant == b.tenant && a.store == b.store && a.sku == b.sku && a.variant == b.variant && a.lot == b.lot
  }

  /** Equal index entries. */
  predicate SameEntry(a: Row, b: Row) {
    && a.tenant == b.tenant && a.store == b.store && a.sku == b.sku
    && Coalesce(a.variant) == Coalesce(b.variant) && Coalesce(a.lot) == Coalesce(b.lot)
  }

  predicate KeyUnique(rows: seq<Row>) {
    forall i, j :: 0 <= i < j < |rows| ==> !SameKey(rows[i], rows[j])
  }

  predicate EntryUnique(rows: seq<Row>) {
    forall i, j :: 0 <= i < j < |rows| ==> !SameEntry(rows[i], rows[j])
  }

  predicate VariantsFilled(rows: seq<Row>) {
    forall i :: 0 <= i < |rows| ==> rows[i].variant != Some("")
  }

  predicate LotsFilled(rows: seq<Row>) {
    forall i :: 0 <= i < |rows| ==> rows[i].lot != Some("")
  }

  /** COALESCE tells the values of a set apart exactly when the set does not hold both NULL and ''. */
  lemma CoalesceInjective(values: set<Option<string>>)
    ensures (forall x, y :: x in values && y in values && Coalesce(x) == Coalesce(y) ==> x == y)
            <==> !(None in values && Some("") in values)
  {
    if None in values && Some("") in values {
      var x: Option<string>, y: Option<string> := None, Some("");
      assert x in values && y in values && Coalesce(x) == Coalesce(y) && x != y;
    }
  }

  /** Under the CHECKs, index uniqueness is NULLS NOT DISTINCT uniqueness. */
  lemma IndexMeansKey(rows: seq<Row>)
    requires VariantsFilled(rows) && LotsFilled(rows)
    ensures EntryUnique(rows) <==> KeyUnique(rows)
  {
    forall i, j | 0 <= i < j < |rows| ensures SameEntry(rows[i], rows[j]) <==> SameKey(rows[i], rows[j]) {
    }
  }

  /** Without them it is not: NULL and '' are different keys with one index entry. */
  lemma EmptyCollidesWithNull(r: Row)
    requires r.variant == None
    ensures KeyUnique([r, r.(variant := Some(""))]) && !EntryUnique([r, r.(variant := Some(""))])
  {
    var rows := [r, r.(variant := Some(""))];
    assert SameEntry(rows[0], rows[1]);
  }

  // ---------------------------------------------------------------- the table and its guards

  datatype Table = Table(rows: seq<Row>, constraint: bool, index: bool, checkVariant: bool, checkLot: bool)

  /** Every guard that is present holds. */
  predicate Enforced(t: Table) {
    && (t.constraint ==> KeyUnique(t.rows))
    && (t.index ==> EntryUnique(t.rows))
    && (t.checkVariant ==> VariantsFilled(t.rows))
    && (t.checkLot ==> LotsFilled(t.rows))
  }

  /** Uniqueness is guarded, and an index never stands without both CHECKs. */
  predicate Guarded(t: Table) {
    && Enforced(t)
    && (t.constraint || t.index)
    && (t.index ==> t.checkVariant && t.checkLot)
  }

  /** A guarded table has no two rows of one natural key. */
  lemma GuardedIsUnique(t: Table)
    requires Guarded(t)
    ensures KeyUnique(t.rows)
  {
    if t.index { IndexMeansKey(t.rows); }
  }

  /** An INSERT is accepted when the row passes every guard that is present. */
  function InsertRow(t: Table, r: Row): Table {
    var t' := t.(rows := t.rows + [r]);
    if Enforced(t') then t' else t
  }

  // ---------------------------------------------------------------- migrations step by step

  datatype Pc =
    | Idle
    | UpAssert | UpCheckVariant | UpCheckLot | UpIndex | UpDropConstraint
    | DownConstraint | DownDropIndex | DownDropVariant | DownDropLot

  /** The table, the statement about to run, and the table as it was when the migration began. */
  datatype State = State(table: Table, pc: Pc, start: Table)

  datatype Step = StartUpgrade | StartDowngrade | Advance(role: Rls.Role) | Stop | Rollback | Insert(row: Row)

  /** The precondition's count is zero: no row its role sees has an empty segment. The table is under forced
      row-level security. */
  predicate CountIsZero(role: Rls.Role, rows: seq<Row>) {
    forall i :: 0 <= i < |rows| && role.Sees(true, rows[i].tenant) ==> rows[i].variant != Some("") && rows[i].lot != Some("")
  }

  /** So the count means what it is for exactly when the role bypasses the policy, or no segment is empty. */
  lemma CountMeansWhatItSays(role: Rls.Role, rows: seq<Row>)
    ensures (CountIsZero(role, rows) <==> VariantsFilled(rows) && LotsFilled(rows))
            <==> role.bypassesRls || (VariantsFilled(rows) && LotsFilled(rows))
    ensures !role.bypassesRls ==> CountIsZero(role, rows)
  {
    if role.bypassesRls && CountIsZero(role, rows) {
      assert forall i :: 0 <= i < |rows| ==> role.Sees(true, rows[i].tenant);
    }
  }

  /** One DDL statement; `None` where the engine or the precondition raises. CHECKs, constraint and index
      are built over every row, whatever the role sees. */
  function Statement(role: Rls.Role, t: Table, pc: Pc): Option<Table> {
    match pc
    case Idle => Some(t)
    case UpAssert => if t.index || CountIsZero(role, t.rows) then Some(t) else None
    case UpCheckVariant =>
      if t.checkVariant || VariantsFilled(t.rows) then Some(t.(checkVariant := true)) else None
    case UpCheckLot => if t.checkLot || LotsFilled(t.rows) then Some(t.(checkLot := true)) else None
    case UpIndex => if t.index || EntryUnique(t.rows) then Some(t.(index := true)) else None
    case UpDropConstraint => Some(t.(constraint := false))
    case DownConstraint => if t.constraint || KeyUnique(t.rows) then Some(t.(constraint := true)) else None
    case DownDropIndex => Some(t.(index := false))
    case DownDropVariant => Some(t.(checkVariant := false))
    case DownDropLot => Some(t.(checkLot := false))
  }

  function Following(pc: Pc): Pc {
    match pc
    case UpAssert => UpCheckVariant
    case UpCheckVariant => UpCheckLot
    case UpCheckLot => UpIndex
    case UpIndex => UpDropConstraint
    case DownConstraint => DownDropIndex
    case DownDropIndex => DownDropVariant
    case DownDropVariant => DownDropLot
    case _ => Idle
  }

  /** Migrations run one at a time. In one transaction a failure rolls the guards back, no row having arrived
      since, for its locks keep them out; without one, a migration may stop anywhere, and rows may arrive
      between statements. */
  function Next(s: State, step: Step): State {
    match step
    case StartUpgrade => if s.pc.Idle? then State(s.table, UpAssert, s.table) else s
    case StartDowngrade => if s.pc.Idle? then State(s.table, DownConstraint, s.table) else s
    case Stop => s.(pc := Idle)
    case Rollback => if s.table.rows == s.start.rows then State(s.start, Idle, s.start) else s
    case Insert(r) => s.(table := InsertRow(s.table, r))
    case Advance(role) =>
      match Statement(role, s.table, s.pc)
      case Some(t) => s.(table := t, pc := Following(s.pc))
      case None => s.(pc := Idle)
  }

  function RunSteps(s: State, steps: seq<Step>): State {
    if steps == [] then s
    else Next(RunSteps(s, steps[..|steps| - 1]), steps[|steps| - 1])
  }

  /** What the statement about to run may rely on. */
  predicate Ready(t: Table, pc: Pc) {
    match pc
    case UpCheckLot => t.checkVariant
    case UpIndex => t.checkVariant && t.checkLot
    case UpDropConstraint => t.index
    case DownDropIndex => t.constraint
    case DownDropVariant => t.constraint && !t.index
    case DownDropLot => t.constraint && !t.index
    case _ => true
  }

  predicate Inv(s: State) {
    Guarded(s.table) && Ready(s.table, s.pc) && Guarded(s.start)
  }

  /** The new unique index and the restored constraint can always be created. */
  lemma UniquenessNeverFails(s: State, role: Rls.Role)
    requires Inv(s) && (s.pc.UpIndex? || s.pc.DownConstraint?)
    ensures Statement(role, s.table, s.pc).Some?
  {
    hide KeyUnique, EntryUnique;
    GuardedIsUnique(s.table);
    if s.pc.UpIndex? { IndexMeansKey(s.table.rows); }
  }

  lemma StepKeeps(s: State, step: Step)
    requires Inv(s)
    ensures Inv(Next(s, step))
  {
    hide KeyUnique, EntryUnique, VariantsFilled, LotsFilled;
    if step.Advance? && (s.pc.UpIndex? || s.pc.DownConstraint?) {
      UniquenessNeverFails(s, step.role);
    }
  }

  lemma {:induction false} StepsKeep(s: State, steps: seq<Step>)
    requires Inv(s)
    ensures Inv(RunSteps(s, steps))
  {
    hide Inv, Next;
    if steps != [] {
      StepsKeep(s, steps[..|steps| - 1]);
      StepKeeps(RunSteps(s, steps[..|steps| - 1]), steps[|steps| - 1]);
    }
  }

  /** The two tables a deployment starts from: the old constraint, or a fresh bootstrap. */
  predicate Initial(t: Table) {
    || (t == Table(t.rows, true, false, false, false) && KeyUnique(t.rows))
    || (t == Table(t.rows, false, true, true, true) && EntryUnique(t.rows) && VariantsFilled(t.rows) && LotsFilled(t.rows))
  }

  /** Across any run of upgrade steps, downgrade steps, interruptions, rollbacks and inserts: some uniqueness
      guard exists, the index has both CHECKs, no natural key occurs twice, and neither creating the
      index nor restoring the constraint can fail. */
  lemma UniquenessNeverLapses(t: Table, steps: seq<Step>)
    requires Initial(t)
    ensures
      var s := RunSteps(State(t, Idle, t), steps);
      && (s.table.constraint || s.table.index)
      && (s.table.index ==> s.table.checkVariant && s.table.checkLot)
      && KeyUnique(s.table.rows)
      && (s.pc.UpIndex? || s.pc.DownConstraint? ==> forall role :: Statement(role, s.table, s.pc).Some?)
  {
    StepsKeep(State(t, Idle, t), steps);
    var s := RunSteps(State(t, Idle, t), steps);
    GuardedIsUnique(s.table);
    if s.pc.UpIndex? || s.pc.DownConstraint? {
      forall role ensures Statement(role, s.table, s.pc).Some? {
        UniquenessNeverFails(s, role);
      }
    }
  }

  lemma {:induction false} AdvancesKeepStart(s: State, steps: seq<Step>)
    requires forall i :: 0 <= i < |steps| ==> steps[i].Advance?
    ensures RunSteps(s, steps).start == s.start && RunSteps(s, steps).table.rows == s.table.rows
  {
    if steps != [] { AdvancesKeepStart(s, steps[..|steps| - 1]); }
  }

  /** A migration that fails in its transaction leaves the table it found, however far it got. */
  lemma RollbackRestores(t: Table, start: Table, begin: Step, steps: seq<Step>)
    requires begin == StartUpgrade || begin == StartDowngrade
    requires forall i :: 0 <= i < |steps| ==> steps[i].Advance?
    ensures Next(RunSteps(Next(State(t, Idle, start), begin), steps), Rollback) == State(t, Idle, t)
  {
    AdvancesKeepStart(Next(State(t, Idle, start), begin), steps);
  }

  // ---------------------------------------------------------------- what the guards admit

  /** The two keys in plain terms: all five segments equal, NULL counting as itself; or all five equal with NULL
      read as ''. */
  lemma KeysMean(a: Row, b: Row)
    ensures KeyUnique([a, b]) <==>
            !(a.tenant == b.tenant && a.store == b.store && a.sku == b.sku && a.variant == b.variant && a.lot == b.lot)
    ensures EntryUnique([a, b]) <==>
            !(&& a.tenant == b.tenant && a.store == b.store && a.sku == b.sku
              && (a.variant == b.variant || (a.variant == None && b.variant == Some("")) || (a.variant == Some("") && b.variant == None))
              && (a.lot == b.lot || (a.lot == None && b.lot == Some("")) || (a.lot == Some("") && b.lot == None)))
  {
    var rows := [a, b];
    assert rows[0] == a && rows[1] == b;
  }

  /** The row is of an existing natural key. */
  predicate KeyTaken(rows: seq<Row>, r: Row) {
    exists x :: x in rows && x.tenant == r.tenant && x.store == r.store && x.sku == r.sku && x.variant == r.variant && x.lot == r.lot
  }

  lemma KeyUniqueSnoc(rows: seq<Row>, r: Row)
    requires KeyUnique(rows)
    ensures KeyUnique(rows + [r]) <==> !KeyTaken(rows, r)
  {
    var out := rows + [r];
    if KeyTaken(rows, r) {
      var x :| x in rows && x.tenant == r.tenant && x.store == r.store && x.sku == r.sku && x.variant == r.variant && x.lot == r.lot;
      var i :| 0 <= i < |rows| && rows[i] == x;
      assert SameKey(out[i], out[|rows|]);
    } else {
      forall i | 0 <= i < |rows| ensures !SameKey(rows[i], r) { assert rows[i] in rows; }
    }
  }

  lemma FilledSnoc(rows: seq<Row>, r: Row)
    ensures VariantsFilled(rows + [r]) <==> VariantsFilled(rows) && r.variant != Some("")
    ensures LotsFilled(rows + [r]) <==> LotsFilled(rows) && r.lot != Some("")
  {
    var out := rows + [r];
    assert out[|rows|] == r && forall i :: 0 <= i < |rows| ==> out[i] == rows[i];
  }

  /** The old constraint and the new index admit the same rows. Whichever of them guards the table, before, during and
      after the migration, a row is accepted if and only if its key is not taken and it has no empty segment that a
      CHECK forbids. */
  lemma InsertAcceptedIff(t: Table, r: Row)
    requires Guarded(t)
    ensures
      var refused := (t.checkVariant && r.variant == Some("")) || (t.checkLot && r.lot == Some(""));
      InsertRow(t, r) == if KeyTaken(t.rows, r) || refused then t else t.(rows := t.rows + [r])
  {
    hide KeyUnique, EntryUnique, VariantsFilled, LotsFilled, KeyTaken;
    var rows := t.rows + [r];
    GuardedIsUnique(t);
    KeyUniqueSnoc(t.rows, r);
    FilledSnoc(t.rows, r);
    if VariantsFilled(rows) && LotsFilled(rows) { IndexMeansKey(rows); }
  }

  /** Four statements of a migration. */
  function NextFour(s: State, role: Rls.Role): State {
    Next(Next(Next(Next(s, Advance(role)), Advance(role)), Advance(role)), Advance(role))
  }

  /** Run to its end, the upgrade of the old table trades the constraint for the index and both CHECKs, if no segment
      is empty. */
  lemma WholeUpgrade(rows: seq<Row>, role: Rls.Role)
    requires KeyUnique(rows) && VariantsFilled(rows) && LotsFilled(rows)
    ensures
      var old_ := Table(rows, true, false, false, false);
      var s := Next(NextFour(Next(State(old_, Idle, old_), StartUpgrade), role), Advance(role));
      s == State(Table(rows, false, true, true, true), Idle, old_)
  {
    IndexMeansKey(rows);
    hide KeyUnique, EntryUnique, VariantsFilled, LotsFilled, CountIsZero;
    CountMeansWhatItSays(role, rows);
  }

  /** And the downgrade trades them back. */
  lemma WholeDowngrade(rows: seq<Row>, role: Rls.Role)
    requires KeyUnique(rows)
    ensures
      var new_ := Table(rows, false, true, true, true);
      var s := NextFour(Next(State(new_, Idle, new_), StartDowngrade), role);
      s == State(Table(rows, true, false, false, false), Idle, new_)
  {
    hide KeyUnique;
  }

  // ---------------------------------------------------------------- the migration as written

  datatype UpgradeError = SentinelsPresent | CheckViolated

  class PositionTable {
    var table: Table

    constructor (table: Table)
      ensures this.table == table
    {
      this.table := table;
    }

    /** `upgrade()` in one transaction: refused exactly when the index is missing and an empty segment is
        present, whatever the role sees; by the precondition if it sees the rows, by a CHECK if not. */
    method Upgrade(role: Rls.Role) returns (r: Result<(), UpgradeError>)
      requires Guarded(table)
      modifies this
      ensures Guarded(table) && table.rows == old(table).rows
      ensures r.Ok? <==> old(table).index || (VariantsFilled(table.rows) && LotsFilled(table.rows))
      ensures r.Ok? ==> table == Table(old(table).rows, false, true, true, true)
      ensures r.Err? ==> table == old(table) && (r.error == SentinelsPresent <==> role.bypassesRls)
    {
      hide KeyUnique, EntryUnique, VariantsFilled, LotsFilled, CountIsZero;
      var table0 := table;
      CountMeansWhatItSays(role, table.rows);
      // 1. precondition
      if !table.index && !CountIsZero(role, table.rows) { return Err(SentinelsPresent); }
      // 2. CHECKs first
      if !table.checkVariant {
        if !VariantsFilled(table.rows) { return Err(CheckViolated); }
        table := table.(checkVariant := true);
      }
      if !table.checkLot {
        if !LotsFilled(table.rows) {
          table := table0;
          return Err(CheckViolated);
        }
        table := table.(checkLot := true);
      }
      // 3. the index, before the constraint goes
      GuardedIsUnique(table);
      IndexMeansKey(table.rows);
      if !table.index { table := table.(index := true); }
      // 4. retire the constraint
      table := table.(constraint := false);
      r := Ok(());
    }

    /** `downgrade()`: the constraint returns first, then the index goes, then the CHECKs. */
    method Downgrade()
      requires Guarded(table)
      modifies this
      ensures Guarded(table)
      ensures table == Table(old(table).rows, true, false, false, false)
    {
      GuardedIsUnique(table);
      if !table.constraint { table := table.(constraint := true); }
      table := table.(index := false);
      table := table.(checkVariant := false);
      table := table.(checkLot := false);
    }
  }
}
