/** Migration 0005: from one mapping lineage per source to named templates, and back. */
module TemplateMigration {
  import opened Wrappers
  import opened Uuids
  import Rls

  datatype Status = DRAFT | STAGED | ACTIVE | DEPRECATED

  /** A row of `config.source_mappings`; `template` and `name` are the two added columns. */
  datatype Row = Row(
    tenant: Uuid, source: string, number: nat, status: Status, rules: string,
    template: Option<Uuid>, name: Option<string>)

  predicate SameSource(a: Row, b: Row) {
    a.tenant == b.tenant && a.source == b.source
  }

  // ---------------------------------------------------------------- constraints

  predicate OldSeqClash(a: Row, b: Row) {
    SameSource(a, b) && a.number == b.number
  }

  predicate OldActiveClash(a: Row, b: Row) {
    SameSource(a, b) && a.status == ACTIVE && b.status == ACTIVE
  }

  /** A UNIQUE key: a NULL template never clashes. */
  predicate SameTemplate(a: Row, b: Row) {
    a.template.Some? && a.template == b.template
  }

  predicate NewSeqClash(a: Row, b: Row) {
    OldSeqClash(a, b) && SameTemplate(a, b)
  }

  predicate NewActiveClash(a: Row, b: Row) {
    OldActiveClash(a, b) && SameTemplate(a, b)
  }

  /** The EXCLUDE constraint: one name, two templates, both rows live. */
  predicate NameClash(a: Row, b: Row) {
    && SameSource(a, b) && a.name.Some? && a.name == b.name
    && a.template.Some? && b.template.Some? && a.template != b.template
    && a.status != DEPRECATED && b.status != DEPRECATED
  }

  predicate NoClash(rows: seq<Row>, clash: (Row, Row) -> bool) {
    forall i, j :: 0 <= i < j < |rows| ==> !clash(rows[i], rows[j])
  }

  predicate OldKeys(rows: seq<Row>) {
    NoClash(rows, OldSeqClash) && NoClash(rows, OldActiveClash)
  }

  predicate NewKeys(rows: seq<Row>) {
    NoClash(rows, NewSeqClash) && NoClash(rows, NewActiveClash) && NoClash(rows, NameClash)
  }

  predicate Templated(rows: seq<Row>) {
    forall i :: 0 <= i < |rows| ==> rows[i].template.Some? && rows[i].name.Some?
  }

  predicate Untemplated(rows: seq<Row>) {
    forall i :: 0 <= i < |rows| ==> rows[i].template.None? && rows[i].name.None?
  }

  predicate OneTemplatePerSource(rows: seq<Row>) {
    forall i, j :: 0 <= i < j < |rows| && SameSource(rows[i], rows[j]) ==> rows[i].template == rows[j].template
  }

  // ---------------------------------------------------------------- backfill and its inverse

  /** `mint` is the once-per-group `uuidv7()`. */
  type Mint = (Uuid, string) -> Uuid

  function Backfill(rows: seq<Row>, mint: Mint): seq<Row> {
    seq(|rows|, i requires 0 <= i < |rows| =>
      rows[i].(template := Some(mint(rows[i].tenant, rows[i].source)), name := Some("default")))
  }

  // ---------------------------------------------------------------- what the migration role sees

  /** Every row is visible to the role. */
  predicate SeesAll(role: Rls.Role, rls: bool) {
    role.bypassesRls || !rls
  }

  /** The rows the role's SELECTs range over. */
  function Seen(role: Rls.Role, rls: bool, rows: seq<Row>): seq<Row> {
    if rows == [] then []
    else
      var front, last := rows[..|rows| - 1], rows[|rows| - 1];
      if role.Sees(rls, last.tenant) then Seen(role, rls, front) + [last] else Seen(role, rls, front)
  }

  /** All of them or none: an unscoped statement sees no row of any tenant. */
  lemma {:induction false} SeenAllOrNone(role: Rls.Role, rls: bool, rows: seq<Row>)
    ensures Seen(role, rls, rows) == if SeesAll(role, rls) then rows else []
  {
    if rows != [] {
      SeenAllOrNone(role, rls, rows[..|rows| - 1]);
      assert rows == rows[..|rows| - 1] + [rows[|rows| - 1]];
    }
  }

  function DropColumns(rows: seq<Row>): (out: seq<Row>)
    ensures |out| == |rows|
    ensures forall i :: 0 <= i < |rows| ==> out[i] == rows[i].(template := None, name := None)
  {
    seq(|rows|, i requires 0 <= i < |rows| => rows[i].(template := None, name := None))
  }

  /** The backfill carries each old key to its template-grain form, both ways, and the name
      exclusion holds of its result whatever the rows were. */
  lemma BackfillKeys(rows: seq<Row>, mint: Mint)
    ensures OldKeys(rows) <==> NewKeys(Backfill(rows, mint))
    ensures NoClash(Backfill(rows, mint), NameClash)
    ensures Templated(Backfill(rows, mint)) && OneTemplatePerSource(Backfill(rows, mint))
  {
    var out := Backfill(rows, mint);
    assert forall i, j :: 0 <= i < j < |rows| ==>
             && (OldSeqClash(rows[i], rows[j]) <==> NewSeqClash(out[i], out[j]))
             && (OldActiveClash(rows[i], rows[j]) <==> NewActiveClash(out[i], out[j]));
  }

  lemma BackfillKeepsOldKeys(rows: seq<Row>, mint: Mint)
    ensures NoClash(Backfill(rows, mint), OldSeqClash) <==> NoClash(rows, OldSeqClash)
    ensures NoClash(Backfill(rows, mint), OldActiveClash) <==> NoClash(rows, OldActiveClash)
    ensures |Backfill(rows, mint)| == |rows|
  {
    var out := Backfill(rows, mint);
    assert forall i, j :: 0 <= i < j < |rows| ==>
             && (OldSeqClash(rows[i], rows[j]) <==> OldSeqClash(out[i], out[j]))
             && (OldActiveClash(rows[i], rows[j]) <==> OldActiveClash(out[i], out[j]));
  }

  /** Distinct sources get distinct ids, as fresh UUIDs are. */
  ghost predicate Fresh(mint: Mint) {
    forall t, s, t', s' :: mint(t, s) == mint(t', s') ==> t == t' && s == s'
  }

  /** Each row keeps what it was and gets the name `default` and the id minted for its tenant and source. */
  predicate IsBackfill(before: seq<Row>, after: seq<Row>, mint: Mint) {
    && |after| == |before|
    && forall i :: 0 <= i < |before| ==>
         after[i] == Row(before[i].tenant, before[i].source, before[i].number, before[i].status, before[i].rules,
                         Some(mint(before[i].tenant, before[i].source)), Some("default"))
  }

  /** The backfill makes one template of each source: two of its rows share a template if and only if they are of
      one tenant and one source. */
  lemma BackfillIsPerSource(rows: seq<Row>, mint: Mint, i: nat, j: nat)
    requires Fresh(mint) && i < |rows| && j < |rows|
    ensures
      var out := Backfill(rows, mint);
      && IsBackfill(rows, out, mint)
      && (out[i].template == out[j].template <==> rows[i].tenant == rows[j].tenant && rows[i].source == rows[j].source)
  {
  }

  lemma BackfillIs(rows: seq<Row>, mint: Mint)
    ensures IsBackfill(rows, Backfill(rows, mint), mint)
  {
  }

  /** The keys in plain terms. The old ones: no two rows of a source have one version number, or are both ACTIVE.
      The new ones: the same within a template, and no name is shared by two templates' live rows. */
  lemma KeysMean(a: Row, b: Row)
    requires a.template.Some? && b.template.Some? && a.name.Some? && b.name.Some?
    ensures
      var source := a.tenant == b.tenant && a.source == b.source;
      && (OldKeys([a, b]) <==> !(source && (a.number == b.number || (a.status == ACTIVE && b.status == ACTIVE))))
      && (NewKeys([a, b]) <==>
            && !(source && a.template == b.template && (a.number == b.number || (a.status == ACTIVE && b.status == ACTIVE)))
            && !(source && a.template != b.template && a.name == b.name && a.status != DEPRECATED && b.status != DEPRECATED))
      && (OneTemplatePerSource([a, b]) <==> (source ==> a.template == b.template))
  {
    var rows := [a, b];
    assert rows[0] == a && rows[1] == b;
  }

  /** And of a longer table they hold exactly when they hold of every two of its rows. */
  lemma KeysArePairwise(rows: seq<Row>)
    ensures OldKeys(rows) <==> forall i, j :: 0 <= i < j < |rows| ==> OldKeys([rows[i], rows[j]])
    ensures NewKeys(rows) <==> forall i, j :: 0 <= i < j < |rows| ==> NewKeys([rows[i], rows[j]])
  {
    PairwiseClash(rows, OldSeqClash);
    PairwiseClash(rows, OldActiveClash);
    PairwiseClash(rows, NewSeqClash);
    PairwiseClash(rows, NewActiveClash);
    PairwiseClash(rows, NameClash);
  }

  lemma PairwiseClash(rows: seq<Row>, clash: (Row, Row) -> bool)
    ensures NoClash(rows, clash) <==> forall i, j :: 0 <= i < j < |rows| ==> NoClash([rows[i], rows[j]], clash)
  {
    forall i, j | 0 <= i < j < |rows| ensures NoClash([rows[i], rows[j]], clash) <==> !clash(rows[i], rows[j]) {
      var pair := [rows[i], rows[j]];
      assert pair[0] == rows[i] && pair[1] == rows[j];
    }
  }

  /** Dropping the columns undoes the backfill. */
  lemma DowngradeUndoesBackfill(rows: seq<Row>, mint: Mint)
    requires Untemplated(rows)
    ensures DropColumns(Backfill(rows, mint)) == rows
  {
  }

  // ---------------------------------------------------------------- the downgrade guard

  type Group = (Uuid, string)

  /** Sources with more than one distinct template. */
  function MultiTemplate(rows: seq<Row>): set<Group> {
    set i, j | 0 <= i < |rows| && 0 <= j < |rows|
               && SameSource(rows[i], rows[j]) && rows[i].template != rows[j].template
      :: (rows[i].tenant, rows[i].source)
  }

  /** Sources with more than one ACTIVE row. */
  function MultiActive(rows: seq<Row>): set<Group> {
    set i, j | 0 <= i < |rows| && 0 <= j < |rows| && i != j && OldActiveClash(rows[i], rows[j])
      :: (rows[i].tenant, rows[i].source)
  }

  /** (tenant, source, version) groups with more than one row. */
  function DuplicateSeq(rows: seq<Row>): set<(Group, nat)> {
    set i, j | 0 <= i < |rows| && 0 <= j < |rows| && i != j && OldSeqClash(rows[i], rows[j])
      :: ((rows[i].tenant, rows[i].source), rows[i].number)
  }

  /** The three counts the downgrade takes are all zero. */
  predicate GuardPasses(rows: seq<Row>) {
    |MultiTemplate(rows)| == 0 && |MultiActive(rows)| == 0 && |DuplicateSeq(rows)| == 0
  }

  lemma MultiTemplateEmpty(rows: seq<Row>)
    ensures |MultiTemplate(rows)| == 0 <==> OneTemplatePerSource(rows)
  {
    if OneTemplatePerSource(rows) {
      assert MultiTemplate(rows) == {};
    }
    if MultiTemplate(rows) == {} {
      forall i, j | 0 <= i < j < |rows| && SameSource(rows[i], rows[j])
        ensures rows[i].template == rows[j].template
      {
        assert (rows[i].tenant, rows[i].source) !in MultiTemplate(rows);
      }
    }
  }

  lemma MultiActiveEmpty(rows: seq<Row>)
    ensures |MultiActive(rows)| == 0 <==> NoClash(rows, OldActiveClash)
  {
    if NoClash(rows, OldActiveClash) {
      assert forall i, j :: 0 <= i < |rows| && 0 <= j < |rows| && i != j ==> !OldActiveClash(rows[i], rows[j]);
      assert MultiActive(rows) == {};
    }
    if MultiActive(rows) == {} {
      forall i, j | 0 <= i < j < |rows| ensures !OldActiveClash(rows[i], rows[j]) {
        assert (rows[i].tenant, rows[i].source) !in MultiActive(rows);
      }
    }
  }

  lemma DuplicateSeqEmpty(rows: seq<Row>)
    ensures |DuplicateSeq(rows)| == 0 <==> NoClash(rows, OldSeqClash)
  {
    if NoClash(rows, OldSeqClash) {
      assert forall i, j :: 0 <= i < |rows| && 0 <= j < |rows| && i != j ==> !OldSeqClash(rows[i], rows[j]);
      assert DuplicateSeq(rows) == {};
    }
    if DuplicateSeq(rows) == {} {
      forall i, j | 0 <= i < j < |rows| ensures !OldSeqClash(rows[i], rows[j]) {
        assert ((rows[i].tenant, rows[i].source), rows[i].number) !in DuplicateSeq(rows);
      }
    }
  }

  /** The guard passes exactly when the old keys hold and every source has one template. */
  lemma GuardIsExact(rows: seq<Row>)
    ensures GuardPasses(rows) <==> OldKeys(rows) && OneTemplatePerSource(rows)
  {
    MultiTemplateEmpty(rows);
    MultiActiveEmpty(rows);
    DuplicateSeqEmpty(rows);
  }

  /** The downgrade's guard, over the rows its role sees, means what it is for (the old keys hold and every
      source has one template) if and only if the role sees every row, or the table passes anyway. */
  lemma GuardMeansWhatItSays(role: Rls.Role, rls: bool, rows: seq<Row>)
    ensures (GuardPasses(Seen(role, rls, rows)) <==> OldKeys(rows) && OneTemplatePerSource(rows))
            <==> SeesAll(role, rls) || (OldKeys(rows) && OneTemplatePerSource(rows))
    ensures !SeesAll(role, rls) ==> GuardPasses(Seen(role, rls, rows))
  {
    SeenAllOrNone(role, rls, rows);
    GuardIsExact(rows);
    NothingPasses();
  }

  lemma NothingPasses()
    ensures GuardPasses([])
  {
    GuardIsExact([]);
  }

  /** On a table that meets the template-grain constraints, only the multi-template check decides, and it
      decides only for a role that sees the rows. */
  lemma GuardReducesToTemplates(role: Rls.Role, rls: bool, rows: seq<Row>)
    requires Templated(rows) && NewKeys(rows)
    ensures GuardPasses(Seen(role, rls, rows)) <==> !SeesAll(role, rls) || |MultiTemplate(rows)| == 0
  {
    hide GuardPasses, Seen, MultiTemplate, NewKeys, OldKeys, OneTemplatePerSource, Templated;
    SeenAllOrNone(role, rls, rows);
    GuardIsExact(rows);
    MultiTemplateEmpty(rows);
    GuardMeansWhatItSays(role, rls, rows);
    if OneTemplatePerSource(rows) { OneTemplateGivesOldKeys(rows); }
  }

  lemma OneTemplateGivesOldKeys(rows: seq<Row>)
    requires Templated(rows) && NewKeys(rows) && OneTemplatePerSource(rows)
    ensures OldKeys(rows)
  {
    assert forall i, j :: 0 <= i < j < |rows| ==>
             && (OldSeqClash(rows[i], rows[j]) ==> NewSeqClash(rows[i], rows[j]))
             && (OldActiveClash(rows[i], rows[j]) ==> NewActiveClash(rows[i], rows[j]));
  }

  lemma DropKeepsOldKeys(rows: seq<Row>)
    ensures OldKeys(DropColumns(rows)) <==> OldKeys(rows)
    ensures Untemplated(DropColumns(rows))
  {
    var out := DropColumns(rows);
    assert forall i, j :: 0 <= i < j < |rows| ==>
             && (OldSeqClash(rows[i], rows[j]) <==> OldSeqClash(out[i], out[j]))
             && (OldActiveClash(rows[i], rows[j]) <==> OldActiveClash(out[i], out[j]));
  }

  // ---------------------------------------------------------------- the migration itself

  datatype Grain = PerSource | PerTemplate

  datatype Schema = Schema(
    columns: bool, seqKey: Option<Grain>, activeKey: Option<Grain>, nameExclusion: bool,
    triggerGrain: Grain, invokerView: bool, rls: bool)

  const OLD_SCHEMA := Schema(false, Some(PerSource), Some(PerSource), false, PerSource, false, false)
  const NEW_SCHEMA := Schema(true, Some(PerTemplate), Some(PerTemplate), true, PerTemplate, true, true)

  /** The schema before the migration: no template columns, both keys per source, row-level security off. After it:
      both keys and the trigger per template, the name exclusion, a view with its caller's rights, security on. */
  lemma SchemasAre()
    ensures !OLD_SCHEMA.columns && OLD_SCHEMA.seqKey == Some(PerSource) && OLD_SCHEMA.activeKey == Some(PerSource)
    ensures !OLD_SCHEMA.nameExclusion && OLD_SCHEMA.triggerGrain == PerSource && !OLD_SCHEMA.invokerView && !OLD_SCHEMA.rls
    ensures NEW_SCHEMA.columns && NEW_SCHEMA.seqKey == Some(PerTemplate) && NEW_SCHEMA.activeKey == Some(PerTemplate)
    ensures NEW_SCHEMA.nameExclusion && NEW_SCHEMA.triggerGrain == PerTemplate && NEW_SCHEMA.invokerView && NEW_SCHEMA.rls
  {
  }

  /** A constraint over the template columns needs the columns. */
  predicate WellFormed(sc: Schema) {
    !sc.columns ==> sc.seqKey != Some(PerTemplate) && sc.activeKey != Some(PerTemplate) && !sc.nameExclusion
  }

  /** The constraints a schema carries hold of the rows. */
  predicate Enforced(sc: Schema, rows: seq<Row>) {
    && WellFormed(sc)
    && (if sc.columns then Templated(rows) else Untemplated(rows))
    && (sc.seqKey == Some(PerSource) ==> NoClash(rows, OldSeqClash))
    && (sc.seqKey == Some(PerTemplate) ==> NoClash(rows, NewSeqClash))
    && (sc.activeKey == Some(PerSource) ==> NoClash(rows, OldActiveClash))
    && (sc.activeKey == Some(PerTemplate) ==> NoClash(rows, NewActiveClash))
    && (sc.nameExclusion ==> NoClash(rows, NameClash))
  }

  datatype MigrationError = ConstraintViolated | GuardRefused | NullLeft

  /** What the downgrade comes to. The guard sees what its role sees; the keys it re-adds are checked
      against every row. */
  function Downgraded(role: Rls.Role, sc: Schema, rows: seq<Row>): Result<seq<Row>, MigrationError> {
    if sc.columns && !GuardPasses(Seen(role, sc.rls, rows)) then Err(GuardRefused)
    else if !OldKeys(rows) then Err(ConstraintViolated)
    else Ok(DropColumns(rows))
  }

  /** A role that sees every row: the guard alone decides, and the re-added keys cannot fail. A role that
      does not: the guard never refuses, the old keys alone decide, and the templates of a source are lost
      without notice exactly when it has several and the old keys happen to hold. */
  lemma WhoDecidesTheDowngrade(role: Rls.Role, sc: Schema, rows: seq<Row>)
    requires sc.columns
    ensures
      var r := Downgraded(role, sc, rows);
      && (SeesAll(role, sc.rls) ==>
            && (r.Ok? <==> OldKeys(rows) && OneTemplatePerSource(rows))
            && (r.Err? ==> r.error == GuardRefused))
      && (r.Ok? ==> r.value == DropColumns(rows))
      && (!SeesAll(role, sc.rls) ==> (r.Ok? <==> OldKeys(rows)) && (r.Err? ==> r.error == ConstraintViolated))
      && (r.Ok? && !OneTemplatePerSource(rows) <==>
            !SeesAll(role, sc.rls) && OldKeys(rows) && !OneTemplatePerSource(rows))
  {
    SeenAllOrNone(role, sc.rls, rows);
    GuardIsExact(rows);
    GuardMeansWhatItSays(role, sc.rls, rows);
  }

  /** A draft version of a template of the source (`tenant`, `source`). */
  function Draft(tenant: Uuid, source: string, template: Uuid, name: string, number: nat): Row {
    Row(tenant, source, number, DRAFT, "", Some(template), Some(name))
  }

  lemma TwoDrafts(tenant: Uuid, source: string, t: Uuid, u: Uuid, m: string, n: string, i: nat, j: nat)
    requires t != u && m != n
    ensures
      var rows := [Draft(tenant, source, t, m, i), Draft(tenant, source, u, n, j)];
      && Enforced(NEW_SCHEMA, rows) && !OneTemplatePerSource(rows) && (OldKeys(rows) <==> i != j)
  {
    var rows := [Draft(tenant, source, t, m, i), Draft(tenant, source, u, n, j)];
    assert SameSource(rows[0], rows[1]);
    if i == j { assert OldSeqClash(rows[0], rows[1]); }
  }

  /** The failing table: two templates of one source, at versions 1 and 2. It is valid, a role that bypasses
      the policy is refused, and one that does not downgrades it, leaving what one template would leave. */
  lemma BlindDowngradeLosesATemplate(tenant: Uuid, source: string, t: Uuid, u: Uuid, m: string, n: string)
    requires t != u && m != n
    ensures
      var rows := [Draft(tenant, source, t, m, 1), Draft(tenant, source, u, n, 2)];
      var one := [Draft(tenant, source, t, m, 1), Draft(tenant, source, t, m, 2)];
      && Enforced(NEW_SCHEMA, rows)
      && Downgraded(Rls.Role(true), NEW_SCHEMA, rows) == Err(GuardRefused)
      && Downgraded(Rls.Role(false), NEW_SCHEMA, rows) == Ok(DropColumns(rows))
      && DropColumns(rows) == DropColumns(one)
  {
    hide Downgraded, OldKeys, OneTemplatePerSource, Enforced;
    var rows := [Draft(tenant, source, t, m, 1), Draft(tenant, source, u, n, 2)];
    TwoDrafts(tenant, source, t, u, m, n, 1, 2);
    WhoDecidesTheDowngrade(Rls.Role(true), NEW_SCHEMA, rows);
    WhoDecidesTheDowngrade(Rls.Role(false), NEW_SCHEMA, rows);
  }

  /** And with one version number in both, the role that sees nothing gets past the guard and fails on a key. */
  lemma BlindDowngradeFailsLate(tenant: Uuid, source: string, t: Uuid, u: Uuid, m: string, n: string)
    requires t != u && m != n
    ensures
      var rows := [Draft(tenant, source, t, m, 1), Draft(tenant, source, u, n, 1)];
      && Enforced(NEW_SCHEMA, rows)
      && Downgraded(Rls.Role(true), NEW_SCHEMA, rows) == Err(GuardRefused)
      && Downgraded(Rls.Role(false), NEW_SCHEMA, rows) == Err(ConstraintViolated)
  {
    hide Downgraded, OldKeys, OneTemplatePerSource, Enforced;
    var rows := [Draft(tenant, source, t, m, 1), Draft(tenant, source, u, n, 1)];
    TwoDrafts(tenant, source, t, u, m, n, 1, 1);
    WhoDecidesTheDowngrade(Rls.Role(true), NEW_SCHEMA, rows);
    WhoDecidesTheDowngrade(Rls.Role(false), NEW_SCHEMA, rows);
  }

  class SourceMappings {
    var schema: Schema
    var rows: seq<Row>

    constructor (schema: Schema, rows: seq<Row>)
      ensures this.schema == schema && this.rows == rows
    {
      this.schema, this.rows := schema, rows;
    }

    predicate Valid()
      reads this
    {
      Enforced(schema, rows)
    }

    /** `upgrade()`, in its own order and from any schema. It succeeds exactly when the backfill reaches
        every row and the rows then meet the three template-grain constraints; otherwise its transaction
        leaves no trace. */
    method Upgrade(role: Rls.Role, mint: Mint) returns (r: Result<(), MigrationError>)
      requires Valid()
      modifies this
      ensures r.Ok? <==>
        && (old(schema).columns || old(rows) == [] || SeesAll(role, old(schema).rls))
        && NewKeys(if old(schema).columns then old(rows) else Backfill(old(rows), mint))
      ensures r.Ok? ==>
        && Valid() && schema == NEW_SCHEMA
        && (old(schema).columns || IsBackfill(old(rows), rows, mint))
        && rows == (if old(schema).columns then old(rows) else Backfill(old(rows), mint))
      ensures r.Err? ==> schema == old(schema) && rows == old(rows)
      ensures r.Err? && !schema.columns && rows != [] && !SeesAll(role, schema.rls) ==> r.error == NullLeft
      ensures r.Err? && (schema.columns || rows == [] || SeesAll(role, schema.rls)) ==> r.error == ConstraintViolated
    {
      hide NoClash, Templated, Untemplated, Backfill, OneTemplatePerSource, OldKeys, NewKeys, IsBackfill;
      var schema0, rows0 := schema, rows;
      // 2. columns, backfill of the rows the role sees, NOT NULL over all of them
      if !schema.columns {
        SeenAllOrNone(role, schema.rls, rows);
        if |Seen(role, schema.rls, rows)| < |rows| { return Err(NullLeft); }
        BackfillKeys(rows, mint);
        BackfillKeepsOldKeys(rows, mint);
        BackfillIs(rows, mint);
        rows := Backfill(rows, mint);
        schema := schema.(columns := true);
      }
      var ok := Rekey();
      if !ok {
        schema, rows := schema0, rows0;
        return Err(ConstraintViolated);
      }
      r := Ok(());
    }

    /** Steps 3 to 8, on a table that has the columns. */
    method Rekey() returns (ok: bool)
      requires Valid() && schema.columns
      modifies this`schema
      ensures ok <==> NewKeys(rows)
      ensures ok ==> Valid() && schema == NEW_SCHEMA
    {
      hide NoClash, Templated, Untemplated;
      // 3. version key
      if schema.seqKey != Some(PerTemplate) {
        schema := schema.(seqKey := None);
        if !NoClash(rows, NewSeqClash) { return false; }
        schema := schema.(seqKey := Some(PerTemplate));
      }
      // 4. active key
      if schema.activeKey != Some(PerTemplate) {
        schema := schema.(activeKey := None);
        if !NoClash(rows, NewActiveClash) { return false; }
        schema := schema.(activeKey := Some(PerTemplate));
      }
      // 5. name exclusion
      if !schema.nameExclusion {
        if !NoClash(rows, NameClash) { return false; }
        schema := schema.(nameExclusion := true);
      }
      // 6. trigger, 7. view, 8. row-level security last
      schema := schema.(triggerGrain := PerTemplate);
      schema := schema.(invokerView := true);
      schema := schema.(rls := true);
      ok := true;
    }

    /** `downgrade()`: the guard over the rows its role sees, before the policy goes; then the old keys over
        every row. */
    method Downgrade(role: Rls.Role) returns (r: Result<(), MigrationError>)
      requires Valid()
      modifies this
      ensures
        var want := Downgraded(role, old(schema), old(rows));
        && (want.Ok? ==> r.Ok? && Valid() && schema == OLD_SCHEMA && rows == want.value)
        && (want.Err? ==> r == Err(want.error) && schema == old(schema) && rows == old(rows))
    {
      DropKeepsOldKeys(rows);
      hide NoClash, Templated, Untemplated, GuardPasses, DropColumns;
      var schema0, rows0 := schema, rows;
      if schema.columns && !GuardPasses(Seen(role, schema.rls, rows)) { return Err(GuardRefused); }
      schema := schema.(rls := false, invokerView := false, triggerGrain := PerSource, nameExclusion := false);
      schema := schema.(activeKey := None);
      if !NoClash(rows, OldActiveClash) {
        schema, rows := schema0, rows0;
        return Err(ConstraintViolated);
      }
      schema := schema.(activeKey := Some(PerSource), seqKey := None);
      if !NoClash(rows, OldSeqClash) {
        schema, rows := schema0, rows0;
        return Err(ConstraintViolated);
      }
      schema := schema.(seqKey := Some(PerSource));
      rows := DropColumns(rows);
      schema := schema.(columns := false);
      r := Ok(());
    }
  }

  /** Upgrade then downgrade, whatever the two roles see, restores the rows and the schema of any table
      that met the old keys. */
  method UpgradeThenDowngrade(table: SourceMappings, mint: Mint, up: Rls.Role, down: Rls.Role)
    requires table.Valid() && table.schema == OLD_SCHEMA
    modifies table
    ensures table.Valid() && table.schema == OLD_SCHEMA && table.rows == old(table.rows)
  {
    var before := table.rows;
    BackfillKeys(before, mint);
    var upgraded := table.Upgrade(up, mint);
    BackfillKeepsOldKeys(before, mint);
    WhoDecidesTheDowngrade(down, table.schema, table.rows);
    var downgraded := table.Downgrade(down);
    DowngradeUndoesBackfill(before, mint);
  }
}
