/** The canonical-shape runner's pre-check, which keeps the validation library off the one input it
    crashes on: a column declared Decimal that holds data of another type. */
module DecimalPrecheck {
  import opened Wrappers

  datatype Dtype = Decimal(precision: nat, scale: nat) | Plain(name: string)

  datatype Column = Column(name: string, dtype: Option<Dtype>, checks: seq<string>, nullable: bool, required: bool)

  /** Columns in declaration order; they are the entries of a dictionary, so their names differ. */
  datatype Schema = Schema(columns: seq<Column>, checks: seq<string>, strict: bool, name: string)

  datatype Series = Series(dtype: Dtype, cells: seq<Option<string>>)

  type Frame = map<string, Series>

  datatype Case = Case(
    failureCase: Option<string>, schemaContext: string, column: Option<string>, check: string,
    checkNumber: Option<int>, index: Option<int>)

  datatype Outcome = Cases(cases: seq<Case>) | Crash

  /** The validation library: its check of one present column, of which columns are present, and of the
      cross-field checks; and how it writes a type's name. */
  datatype Library = Library(
    column: (Column, Series) -> Outcome,
    presence: (seq<(string, bool)>, bool, string, Frame) -> seq<Case>,
    frame: (seq<string>, string, Frame) -> seq<Case>,
    show: Dtype -> string)

  /** The declared type is Decimal and the data's is not. */
  predicate Mismatched(column: Column, data: Series) {
    column.dtype.Some? && column.dtype.value.Decimal? && !data.dtype.Decimal?
  }

  function Neutral(name: string): Column {
    Column(name, None, [], true, true)
  }

  /** What is known of the library: it crashes on mismatched columns and no others, and a column with no
      type, no check and no null constraint cannot fail. */
  ghost predicate Lawful(lib: Library) {
    && (forall c, s :: lib.column(c, s).Crash? <==> Mismatched(c, s))
    && (forall name, s :: lib.column(Column(name, None, [], true, true), s) == Cases([]))
  }

  /** The schemas the runner builds: strict, every column required. */
  predicate Materialised(schema: Schema) {
    && schema.strict
    && (forall i :: 0 <= i < |schema.columns| ==> schema.columns[i].required)
    && (forall i, j :: 0 <= i < j < |schema.columns| ==> schema.columns[i].name != schema.columns[j].name)
  }

  // ---- The library's lazy run over a whole schema ----

  function Presence(columns: seq<Column>): seq<(string, bool)> {
    seq(|columns|, i requires 0 <= i < |columns| => (columns[i].name, columns[i].required))
  }

  function ColumnCases(lib: Library, columns: seq<Column>, frame: Frame): Outcome {
    if columns == [] then Cases([])
    else
      var c := columns[0];
      var rest := ColumnCases(lib, columns[1..], frame);
      if c.name !in frame then rest
      else
        var own := lib.column(c, frame[c.name]);
        if own.Crash? || rest.Crash? then Crash else Cases(own.cases + rest.cases)
  }

  function Validate(lib: Library, schema: Schema, frame: Frame): Outcome {
    var columns := ColumnCases(lib, schema.columns, frame);
    if columns.Crash? then Crash
    else Cases(lib.presence(Presence(schema.columns), schema.strict, schema.name, frame)
               + columns.cases + lib.frame(schema.checks, schema.name, frame))
  }

  // ---- The pre-check ----

  predicate Affected(column: Column, frame: Frame) {
    column.name in frame && Mismatched(column, frame[column.name])
  }

  /** The failure case a native type check would report for the column. */
  function DtypeCase(lib: Library, column: Column, data: Series): Case
    requires column.dtype.Some?
  {
    Case(Some(lib.show(data.dtype)), "Column", Some(column.name),
         "dtype('" + lib.show(column.dtype.value) + "')", None, None)
  }

  function Neutralised(columns: seq<Column>, frame: Frame): (r: seq<Column>)
    ensures |r| == |columns|
    ensures forall i :: 0 <= i < |r| ==>
      r[i] == if Affected(columns[i], frame) then Neutral(columns[i].name) else columns[i]
  {
    seq(|columns|, i requires 0 <= i < |columns| =>
      if Affected(columns[i], frame) then Neutral(columns[i].name) else columns[i])
  }

  function Synthesised(lib: Library, columns: seq<Column>, frame: Frame): seq<Case> {
    if columns == [] then []
    else
      var c := columns[|columns| - 1];
      var before := Synthesised(lib, columns[..|columns| - 1], frame);
      if Affected(c, frame) then before + [DtypeCase(lib, c, frame[c.name])] else before
  }

  /** `_decimal_dtype_precheck`: one type failure per affected column, in order, and a schema in which
      exactly the affected columns are neutral. */
  method Precheck(lib: Library, schema: Schema, frame: Frame) returns (neutralised: Schema, synthesised: Option<seq<Case>>)
    ensures synthesised.None? <==> forall i :: 0 <= i < |schema.columns| ==> !Affected(schema.columns[i], frame)
    ensures synthesised.None? ==> neutralised == schema
    ensures synthesised.Some? ==>
      && synthesised.value == Synthesised(lib, schema.columns, frame) != []
      && neutralised == schema.(columns := Neutralised(schema.columns, frame), strict := true)
  {
    var cases: seq<Case> := [];
    var columns := schema.columns;
    for i := 0 to |schema.columns|
      invariant |columns| == |schema.columns|
      invariant columns[..i] == Neutralised(schema.columns, frame)[..i]
      invariant columns[i..] == schema.columns[i..]
      invariant cases == Synthesised(lib, schema.columns[..i], frame)
      invariant cases == [] <==> forall k :: 0 <= k < i ==> !Affected(schema.columns[k], frame)
    {
      var column := schema.columns[i];
      assert schema.columns[..i + 1][..i] == schema.columns[..i];
      if Affected(column, frame) {
        cases := cases + [DtypeCase(lib, column, frame[column.name])];
        columns := columns[i := Neutral(column.name)];
      }
    }
    assert schema.columns[..|schema.columns|] == schema.columns;
    if cases == [] {
      return schema, None;
    }
    assert columns == Neutralised(schema.columns, frame);
    return Schema(columns, schema.checks, true, schema.name), Some(cases);
  }

  // ---- The run ----

  datatype Failure = Failure(column: Option<string>, check: string, row: Option<int>, value: Option<string>)

  /** `format_canonical_shape_failures`, one case at a time and without the wording of the reason. */
  function Format(case_: Case): Failure {
    var column := if case_.schemaContext == "DataFrameSchema" then None else case_.column;
    if case_.check == "column_in_dataframe" || case_.check == "column_in_schema" then
      Failure(case_.failureCase, case_.check, None, None)
    else if column.None? then Failure(None, case_.check, case_.index, case_.failureCase)
    else if case_.check == "not_nullable" then Failure(column, case_.check, case_.index, None)
    else Failure(column, case_.check, case_.index, case_.failureCase)
  }

  function FormatAll(cases: seq<Case>): (r: seq<Failure>)
    ensures |r| == |cases| && forall i :: 0 <= i < |r| ==> r[i] == Format(cases[i])
  {
    seq(|cases|, i requires 0 <= i < |cases| => Format(cases[i]))
  }

  datatype Verdict = Verdict(passed: bool, failures: seq<Failure>)

  /** The cases a run reports: the synthesised ones, then those of the library on the neutralised schema. */
  function Reported(lib: Library, schema: Schema, frame: Frame): Outcome {
    var native := Validate(lib, schema.(columns := Neutralised(schema.columns, frame)), frame);
    if native.Crash? then Crash else Cases(Synthesised(lib, schema.columns, frame) + native.cases)
  }

  /** `run_canonical_shape`. It never reaches the library's crash, so it always has a verdict. */
  method RunCanonicalShape(lib: Library, schema: Schema, frame: Frame) returns (v: Verdict)
    requires Lawful(lib) && Materialised(schema)
    ensures Reported(lib, schema, frame).Cases?
    ensures v.failures == FormatAll(Reported(lib, schema, frame).cases)
    ensures v.passed <==> Reported(lib, schema, frame).cases == []
  {
    var checked, synthesised := Precheck(lib, schema, frame);
    NothingToNeutralise(lib, schema.columns, frame);
    NeutralisedNeverCrashes(lib, schema.columns, frame);
    var native := Validate(lib, checked, frame).cases;
    if native != [] {
      var cases := native;
      if synthesised.Some? {
        cases := synthesised.value + native;
      }
      assert synthesised.None? ==> [] + native == native;
      return Verdict(false, FormatAll(cases));
    }
    if synthesised.Some? {
      assert synthesised.value + [] == synthesised.value;
      return Verdict(false, FormatAll(synthesised.value));
    }
    return Verdict(true, []);
  }

  lemma {:induction false} NothingToNeutralise(lib: Library, columns: seq<Column>, frame: Frame)
    ensures (forall i :: 0 <= i < |columns| ==> !Affected(columns[i], frame))
            <==> Synthesised(lib, columns, frame) == []
    ensures (forall i :: 0 <= i < |columns| ==> !Affected(columns[i], frame)) ==> Neutralised(columns, frame) == columns
  {
    if columns != [] {
      var n := |columns| - 1;
      NothingToNeutralise(lib, columns[..n], frame);
      assert forall i :: 0 <= i < n ==> columns[i] == columns[..n][i];
    }
  }

  // ---- Crash freedom ----

  /** Unguarded, the library crashes on exactly the frames with an affected column. */
  lemma {:induction false} UnguardedCrashesWhenAffected(lib: Library, columns: seq<Column>, frame: Frame)
    requires Lawful(lib)
    ensures ColumnCases(lib, columns, frame).Crash? <==> exists i :: 0 <= i < |columns| && Affected(columns[i], frame)
  {
    if columns != [] {
      UnguardedCrashesWhenAffected(lib, columns[1..], frame);
      var rest := columns[1..];
      if i :| 0 <= i < |rest| && Affected(rest[i], frame) {
        assert columns[i + 1] == rest[i];
      }
      if i :| 0 <= i < |columns| && Affected(columns[i], frame) && i > 0 {
        assert rest[i - 1] == columns[i];
      }
    }
  }

  /** After the pre-check no column is left for the library to crash on. */
  lemma NeutralisedNeverCrashes(lib: Library, columns: seq<Column>, frame: Frame)
    requires Lawful(lib)
    ensures ColumnCases(lib, Neutralised(columns, frame), frame).Cases?
  {
    UnguardedCrashesWhenAffected(lib, Neutralised(columns, frame), frame);
  }

  // ---- Refinement of the ideal library ----

  /** A library with the defect repaired: the same but on mismatched columns, where it reports something. */
  ghost predicate Repairs(ideal: Library, lib: Library) {
    && ideal.presence == lib.presence && ideal.frame == lib.frame && ideal.show == lib.show
    && (forall c, s :: !Mismatched(c, s) ==> ideal.column(c, s) == lib.column(c, s))
    && (forall c, s :: Mismatched(c, s) ==> ideal.column(c, s).Cases? && ideal.column(c, s).cases != [])
  }

  /** The repair upstream would make: a mismatched column reports its type failure, as every other type
      mismatch does, and nothing else. */
  ghost predicate RepairsNatively(ideal: Library, lib: Library) {
    && Repairs(ideal, lib)
    && (forall c, s :: Mismatched(c, s) ==> ideal.column(c, s) == Cases([DtypeCase(lib, c, s)]))
  }

  function Unaffected(columns: seq<Column>, frame: Frame): seq<Column> {
    if columns == [] then []
    else if Affected(columns[0], frame) then Unaffected(columns[1..], frame)
    else [columns[0]] + Unaffected(columns[1..], frame)
  }

  /** The unaffected columns keep exactly the cases the library reports for them, in order, and the
      affected ones add none of the library's. */
  lemma {:induction false} UnaffectedKeepNativeCases(lib: Library, columns: seq<Column>, frame: Frame)
    requires Lawful(lib)
    ensures ColumnCases(lib, Neutralised(columns, frame), frame) == ColumnCases(lib, Unaffected(columns, frame), frame)
  {
    if columns != [] {
      var c, rest := columns[0], columns[1..];
      UnaffectedKeepNativeCases(lib, rest, frame);
      NeutralisedNeverCrashes(lib, rest, frame);
      assert Neutralised(columns, frame)[1..] == Neutralised(rest, frame);
      assert ([c] + Unaffected(rest, frame))[1..] == Unaffected(rest, frame);
    }
  }

  /** Neutralising does not touch the check of which columns are present. */
  lemma PresenceKept(schema: Schema, frame: Frame)
    requires Materialised(schema)
    ensures Presence(Neutralised(schema.columns, frame)) == Presence(schema.columns)
  {
  }

  lemma {:induction false} IdealColumns(ideal: Library, lib: Library, columns: seq<Column>, frame: Frame)
    requires Lawful(lib) && Repairs(ideal, lib)
    ensures ColumnCases(ideal, columns, frame).Cases?
    ensures ColumnCases(lib, Unaffected(columns, frame), frame).Cases?
    ensures ColumnCases(ideal, columns, frame).cases == []
            <==> Synthesised(lib, columns, frame) == [] && ColumnCases(lib, Unaffected(columns, frame), frame).cases == []
  {
    hide Synthesised, Affected;
    if columns != [] {
      var c, rest := columns[0], columns[1..];
      IdealColumns(ideal, lib, rest, frame);
      SynthesisedFirst(lib, columns, frame);
      assert ([c] + Unaffected(rest, frame))[1..] == Unaffected(rest, frame);
      AffectedMeans(c, frame);
    } else {
      NothingToNeutralise(lib, columns, frame);
    }
  }

  lemma AffectedMeans(column: Column, frame: Frame)
    ensures Affected(column, frame) <==> column.name in frame && Mismatched(column, frame[column.name])
  {
  }

  /** The run passes exactly when the repaired library passes, whatever the repair reports. */
  lemma {:induction false} VerdictIsIdeal(ideal: Library, lib: Library, schema: Schema, frame: Frame)
    requires Lawful(lib) && Repairs(ideal, lib) && Materialised(schema)
    ensures Reported(lib, schema, frame).Cases? && Validate(ideal, schema, frame).Cases?
    ensures Reported(lib, schema, frame).cases == [] <==> Validate(ideal, schema, frame).cases == []
  {
    NeutralisedNeverCrashes(lib, schema.columns, frame);
    UnaffectedKeepNativeCases(lib, schema.columns, frame);
    IdealColumns(ideal, lib, schema.columns, frame);
    PresenceKept(schema, frame);
  }

  lemma {:induction false} SynthesisedFirst(lib: Library, columns: seq<Column>, frame: Frame)
    requires columns != []
    ensures Synthesised(lib, columns, frame)
         == (if Affected(columns[0], frame) then [DtypeCase(lib, columns[0], frame[columns[0].name])] else [])
            + Synthesised(lib, columns[1..], frame)
  {
    var n := |columns| - 1;
    if n > 0 {
      SynthesisedFirst(lib, columns[..n], frame);
      assert columns[..n][1..] == columns[1..][..n - 1];
    } else {
      assert columns[..n] == [];
    }
  }

  lemma {:induction false} NativeColumns(ideal: Library, lib: Library, columns: seq<Column>, frame: Frame)
    requires Lawful(lib) && RepairsNatively(ideal, lib)
    ensures ColumnCases(ideal, columns, frame).Cases? && ColumnCases(lib, Unaffected(columns, frame), frame).Cases?
    ensures multiset(ColumnCases(ideal, columns, frame).cases)
         == multiset(Synthesised(lib, columns, frame)) + multiset(ColumnCases(lib, Unaffected(columns, frame), frame).cases)
  {
    hide Synthesised, Affected;
    IdealColumns(ideal, lib, columns, frame);
    if columns == [] {
      NothingToNeutralise(lib, columns, frame);
    } else {
      var c, rest := columns[0], columns[1..];
      IdealColumns(ideal, lib, rest, frame);
      NativeColumns(ideal, lib, rest, frame);
      SynthesisedFirst(lib, columns, frame);
      AffectedMeans(c, frame);
      assert ([c] + Unaffected(rest, frame))[1..] == Unaffected(rest, frame);
    }
  }

  /** Against the native repair, the run reports the very same cases, each as often; only their order
      differs, the synthesised ones coming first. */
  lemma {:induction false} CasesAreIdeal(ideal: Library, lib: Library, schema: Schema, frame: Frame)
    requires Lawful(lib) && RepairsNatively(ideal, lib) && Materialised(schema)
    ensures Reported(lib, schema, frame).Cases? && Validate(ideal, schema, frame).Cases?
    ensures multiset(Reported(lib, schema, frame).cases) == multiset(Validate(ideal, schema, frame).cases)
    ensures Synthesised(lib, schema.columns, frame) <= Reported(lib, schema, frame).cases
  {
    VerdictIsIdeal(ideal, lib, schema, frame);
    UnaffectedKeepNativeCases(lib, schema.columns, frame);
    NativeColumns(ideal, lib, schema.columns, frame);
    PresenceKept(schema, frame);
  }

  /** A missing Decimal column is left to the library's presence check: it is never synthesised. */
  lemma {:induction false} MissingIsNeverSynthesised(lib: Library, columns: seq<Column>, frame: Frame, k: Case)
    requires k in Synthesised(lib, columns, frame)
    ensures k.column.Some? && k.column.value in frame && !frame[k.column.value].dtype.Decimal?
  {
    var n := |columns| - 1;
    if k in Synthesised(lib, columns[..n], frame) {
      MissingIsNeverSynthesised(lib, columns[..n], frame, k);
    }
  }

  /** A synthesised case reads downstream as a whole-column failure of the type check. */
  lemma SynthesisedFormat(lib: Library, column: Column, data: Series)
    requires Mismatched(column, data)
    ensures Format(DtypeCase(lib, column, data))
         == Failure(Some(column.name), "dtype('" + lib.show(column.dtype.value) + "')", None, Some(lib.show(data.dtype)))
  {
    var check := "dtype('" + lib.show(column.dtype.value) + "')";
    assert check[0] == 'd';
  }

  /** The synthesised cases are exactly these: for each present column declared Decimal whose data is of another type,
      one whole-column failure of the type check, naming the column and both types. */
  lemma {:induction false} SynthesisedExactly(lib: Library, columns: seq<Column>, frame: Frame, k: Case)
    ensures k in Synthesised(lib, columns, frame) <==> exists i ::
      && 0 <= i < |columns| && columns[i].name in frame
      && columns[i].dtype.Some? && columns[i].dtype.value.Decimal? && !frame[columns[i].name].dtype.Decimal?
      && k == Case(Some(lib.show(frame[columns[i].name].dtype)), "Column", Some(columns[i].name),
                   "dtype('" + lib.show(columns[i].dtype.value) + "')", None, None)
  {
    if columns != [] {
      var n := |columns| - 1;
      SynthesisedExactly(lib, columns[..n], frame, k);
      assert forall i :: 0 <= i < n ==> columns[..n][i] == columns[i];
      if k in Synthesised(lib, columns[..n], frame) {
        var i :| && 0 <= i < n && columns[..n][i].name in frame
                 && columns[..n][i].dtype.Some? && columns[..n][i].dtype.value.Decimal? && !frame[columns[..n][i].name].dtype.Decimal?
                 && k == Case(Some(lib.show(frame[columns[..n][i].name].dtype)), "Column", Some(columns[..n][i].name),
                              "dtype('" + lib.show(columns[..n][i].dtype.value) + "')", None, None);
        assert columns[i] == columns[..n][i];
      }
    }
  }

  /** How a case reads downstream: presence failures name the column in the value slot and carry no value; a cross-field
      failure has no column; a null failure has no value; any other keeps its column, row and value. */
  lemma FormatIs(k: Case)
    ensures
      var f := Format(k);
      && f.check == k.check
      && (k.check == "column_in_dataframe" || k.check == "column_in_schema" ==> f == Failure(k.failureCase, k.check, None, None))
      && (k.check != "column_in_dataframe" && k.check != "column_in_schema" ==>
            && f.row == k.index
            && f.column == (if k.schemaContext == "DataFrameSchema" then None else k.column)
            && f.value == (if f.column.Some? && k.check == "not_nullable" then None else k.failureCase))
  {
  }

  lemma {:induction false} ColumnCasesAre(lib: Library, columns: seq<Column>, frame: Frame, k: Case)
    requires ColumnCases(lib, columns, frame).Cases?
    ensures k in ColumnCases(lib, columns, frame).cases <==> exists i ::
      && 0 <= i < |columns| && columns[i].name in frame && lib.column(columns[i], frame[columns[i].name]).Cases?
      && k in lib.column(columns[i], frame[columns[i].name]).cases
  {
    if columns != [] {
      var rest := columns[1..];
      ColumnCasesAre(lib, rest, frame, k);
      assert forall i :: 0 < i < |columns| ==> columns[i] == rest[i - 1];
      if k in ColumnCases(lib, rest, frame).cases {
        var i :| && 0 <= i < |rest| && rest[i].name in frame && lib.column(rest[i], frame[rest[i].name]).Cases?
                 && k in lib.column(rest[i], frame[rest[i].name]).cases;
        assert columns[i + 1] == rest[i];
      }
    }
  }

  /** Nothing the library has to say is lost or added: a reported case is a synthesised one, or one of the presence
      check over the declared columns, or of an unaffected present column, or of the cross-field checks. */
  lemma ReportedExactly(lib: Library, schema: Schema, frame: Frame, k: Case)
    requires Lawful(lib) && Materialised(schema)
    ensures Reported(lib, schema, frame).Cases?
    ensures k in Reported(lib, schema, frame).cases <==>
      || k in Synthesised(lib, schema.columns, frame)
      || k in lib.presence(Presence(schema.columns), true, schema.name, frame)
      || k in lib.frame(schema.checks, schema.name, frame)
      || (exists i ::
            && 0 <= i < |schema.columns| && schema.columns[i].name in frame
            && !Mismatched(schema.columns[i], frame[schema.columns[i].name])
            && k in lib.column(schema.columns[i], frame[schema.columns[i].name]).cases)
  {
    hide Synthesised, ColumnCases, Neutralised, Presence;
    var neutral := Neutralised(schema.columns, frame);
    NeutralisedNeverCrashes(lib, schema.columns, frame);
    PresenceKept(schema, frame);
    ColumnCasesAre(lib, neutral, frame, k);
    forall i | 0 <= i < |neutral| && neutral[i].name in frame
      ensures && schema.columns[i].name in frame
              && lib.column(neutral[i], frame[neutral[i].name]) ==
                 if Mismatched(schema.columns[i], frame[schema.columns[i].name]) then Cases([])
                 else lib.column(schema.columns[i], frame[schema.columns[i].name])
    {
    }
    if i :| && 0 <= i < |schema.columns| && schema.columns[i].name in frame
            && !Mismatched(schema.columns[i], frame[schema.columns[i].name])
            && k in lib.column(schema.columns[i], frame[schema.columns[i].name]).cases
    {
      assert neutral[i] == schema.columns[i];
    }
  }

  /** A library that meets the stated laws, and its repair: the laws can be met. */
  lemma LawsCanBeMet() returns (lib: Library, ideal: Library)
    ensures Lawful(lib) && RepairsNatively(ideal, lib)
  {
    var show := (d: Dtype) => "";
    var presence := (columns: seq<(string, bool)>, strict: bool, name: string, frame: Frame) => [];
    var cross := (checks: seq<string>, name: string, frame: Frame) => [];
    lib := Library((c: Column, s: Series) => if Mismatched(c, s) then Crash else Cases([]), presence, cross, show);
    var it := lib;
    ideal := Library((c: Column, s: Series) => if Mismatched(c, s) then Cases([DtypeCase(it, c, s)]) else Cases([]),
                     presence, cross, show);
  }
}
