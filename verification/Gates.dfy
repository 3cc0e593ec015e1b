/** The template gates of the UI server, and the suite the streaming consumer later builds from what
    they let through. */
module Gates {
  import opened Wrappers
  import opened Provenance

  /** A parsed mapping document: rename pairs (source column, canonical column) and derive targets, in
      declaration order. */
  datatype SourceMapping = SourceMapping(version: int, rename: seq<(string, string)>, derive: seq<string>)

  function RenameTargets(s: SourceMapping): seq<string> {
    seq(|s.rename|, i requires 0 <= i < |s.rename| => s.rename[i].1)
  }

  function TargetColumns(s: SourceMapping): seq<string> {
    RenameTargets(s) + s.derive
  }

  function Cols(s: seq<string>): set<string> {
    set i | 0 <= i < |s| :: s[i]
  }

  lemma ColsOfOne(c: string)
    ensures Cols([c]) == {c}
  {
    assert [c][0] in Cols([c]);
  }

  lemma ColsAppend(s: seq<string>, t: seq<string>)
    ensures Cols(s + t) == Cols(s) + Cols(t)
  {
    forall c ensures c in Cols(s + t) <==> c in Cols(s) + Cols(t) {
      if c in Cols(s) {
        var i :| 0 <= i < |s| && s[i] == c;
        assert (s + t)[i] == c;
      }
      if c in Cols(t) {
        var i :| 0 <= i < |t| && t[i] == c;
        assert (s + t)[|s| + i] == c;
      }
    }
  }

  function Targets(s: SourceMapping): set<string> {
    Cols(TargetColumns(s))
  }

  /** A template's targets are what its renames and its derivations name. */
  lemma TargetsAre(s: SourceMapping, c: string)
    ensures c in Targets(s) <==> (exists i :: 0 <= i < |s.rename| && s.rename[i].1 == c) || c in s.derive
    ensures |TargetColumns(s)| == |s.rename| + |s.derive|
  {
    var all := TargetColumns(s);
    if i :| 0 <= i < |s.rename| && s.rename[i].1 == c { assert all[i] == c; }
    if i :| 0 <= i < |s.derive| && s.derive[i] == c { assert all[|s.rename| + i] == c; }
    if i :| 0 <= i < |all| && all[i] == c {
      if i >= |s.rename| { assert s.derive[i - |s.rename|] == c; }
    }
  }

  predicate Distinct(s: seq<string>) {
    forall i, j :: 0 <= i < j < |s| ==> s[i] != s[j]
  }

  datatype GateError =
    | InvalidTemplateType
    | Malformed
    | TargetsNotUnique
    | EmptyRename
    | FitsModels(count: nat)
    | Illegal(columns: set<string>)
    | Unprovided(columns: set<string>)
    | PairingBroken(columns: set<string>)
    | Drifted(drift: Drift)

  /** `raw` is the document as far as its JSON shape goes: None where it has not the shape at all. The
      keys of `derive` are the keys of a dictionary. */
  function ParseMappingRules(raw: Option<SourceMapping>): (r: Result<SourceMapping, GateError>)
    ensures r.Ok? ==> raw == Some(r.value)
    ensures r.Ok? <==> raw.Some? && raw.value.version >= 1 && Distinct(TargetColumns(raw.value)) && raw.value.rename != []
  {
    if raw.None? || raw.value.version < 1 then Err(Malformed)
    else if !Distinct(TargetColumns(raw.value)) then Err(TargetsNotUnique)
    else if raw.value.rename == [] then Err(EmptyRename)
    else Ok(raw.value)
  }

  const CURRENT_POSITION := "store_sku_current_position"

  datatype EnrichmentField = EnrichmentField(canonicalField: string, tables: set<string>)

  const ENRICHMENT_REGISTRY: seq<EnrichmentField> :=
    [EnrichmentField("currency", {CURRENT_POSITION}), EnrichmentField("tax_treatment", {CURRENT_POSITION})]

  function FieldsFor(registry: seq<EnrichmentField>, table: string): (r: seq<string>) {
    if registry == [] then []
    else if table in registry[0].tables then [registry[0].canonicalField] + FieldsFor(registry[1..], table)
    else FieldsFor(registry[1..], table)
  }

  function EnrichmentFields(table: string): (r: seq<string>) {
    FieldsFor(ENRICHMENT_REGISTRY, table)
  }

  /** The columns enrichment adds to a contribution for the model. */
  function EnrichedColumns(m: Model): seq<string> {
    if m == CurrentPosition then EnrichmentFields(CURRENT_POSITION) else []
  }

  lemma RegisteredFields()
    ensures EnrichmentFields(CURRENT_POSITION) == ["currency", "tax_treatment"]
    ensures Guaranteed(CurrentPosition) == {"currency", "tax_treatment"}
    ensures forall table :: table != CURRENT_POSITION ==> EnrichmentFields(table) == []
    ensures forall m :: m != CurrentPosition ==> Guaranteed(m) == {}
  {
    var r := ENRICHMENT_REGISTRY;
    assert FieldsFor(r[1..][1..], CURRENT_POSITION) == [];
    forall table | table != CURRENT_POSITION ensures EnrichmentFields(table) == [] {
      assert FieldsFor(r[1..][1..], table) == [];
      assert FieldsFor(r[1..], table) == [];
    }
    assert FieldsFor(r[1..], CURRENT_POSITION) == ["tax_treatment"];
    ColsAppend(["currency"], ["tax_treatment"]);
    ColsOfOne("currency");
    ColsOfOne("tax_treatment");
  }

  function Guaranteed(m: Model): set<string> {
    Cols(EnrichedColumns(m))
  }

  function Lift<T>(r: Result<T, Drift>): (l: Result<T, GateError>)
    ensures l.Ok? <==> r.Ok?
    ensures l.Ok? ==> l.value == r.value
  {
    if r.Ok? then Ok(r.value) else Err(Drifted(r.error))
  }

  function CheckLegality(w: Registry, s: SourceMapping, m: Model): (r: Result<(), GateError>) {
    var produced :- Lift(MappingProduced(w, m));
    if Targets(s) <= produced then Ok(()) else Err(Illegal(Targets(s) - produced))
  }

  function CheckCoverage(w: Registry, s: SourceMapping, m: Model): (r: Result<(), GateError>) {
    var mandatory :- Lift(MandatoryMappingProduced(w, m, Guaranteed(m)));
    if mandatory <= Targets(s) then Ok(()) else Err(Unprovided(mandatory - Targets(s)))
  }

  const PAIRINGS: seq<(set<string>, set<string>)> :=
    [({"promo_identifier"}, {"promo_price"}),
     ({"expiry_date", "expiry_source", "expiry_confidence"}, {"expiry_date", "expiry_source", "expiry_confidence"})]

  function CheckPairings(pairings: seq<(set<string>, set<string>)>, targets: set<string>): (r: Result<(), GateError>)
    ensures r.Ok? <==> forall p :: p in pairings ==> p.0 * targets == {} || p.1 <= targets
  {
    if pairings == [] then Ok(())
    else if pairings[0].0 * targets != {} && !(pairings[0].1 <= targets) then
      Err(PairingBroken(pairings[0].1 - targets))
    else CheckPairings(pairings[1..], targets)
  }

  const SNAPSHOT := "snapshot"
  const SALES := "sales"
  const INVENTORY_CHANGE := "inventory_change"

  function ModelForType(t: string): Option<Model> {
    if t == SNAPSHOT then Some(CurrentPosition)
    else if t == SALES then Some(SaleEvent)
    else if t == INVENTORY_CHANGE then Some(ChangeEvent)
    else None
  }

  /** The type-keyed gate. */
  function ValidateForType(w: Registry, raw: Option<SourceMapping>, templateType: string): (r: Result<SourceMapping, GateError>)
  {
    if ModelForType(templateType).None? then Err(InvalidTemplateType) else
    var s :- ParseMappingRules(raw);
    var m := ModelForType(templateType).value;
    var _ :- CheckLegality(w, s, m);
    var _ :- CheckCoverage(w, s, m);
    if m == CurrentPosition then
      var _ :- CheckPairings(PAIRINGS, Targets(s));
      Ok(s)
    else Ok(s)
  }

  const EVENT_MODELS: seq<Model> := [SaleEvent, ChangeEvent]

  /** The event models whose produced columns hold all the targets, in order. */
  function Matching(w: Registry, targets: set<string>, models: seq<Model>): (r: Result<seq<Model>, GateError>) {
    if models == [] then Ok([]) else
    var produced :- Lift(MappingProduced(w, models[0]));
    var rest :- Matching(w, targets, models[1..]);
    Ok(if targets <= produced then [models[0]] + rest else rest)
  }

  function RouteTargetModel(w: Registry, s: SourceMapping): (r: Result<Model, GateError>) {
    var matches :- Matching(w, Targets(s), EVENT_MODELS);
    if |matches| != 1 then Err(FitsModels(|matches|)) else Ok(matches[0])
  }

  /** The untyped gate, which infers the model from the targets. */
  function Validate(w: Registry, raw: Option<SourceMapping>): (r: Result<SourceMapping, GateError>) {
    var s :- ParseMappingRules(raw);
    var m :- RouteTargetModel(w, s);
    var _ :- CheckCoverage(w, s, m);
    Ok(s)
  }

  // ---- What the typed gate lets through ----

  /** The model has a provenance, and it partitions the model's fields. */
  ghost predicate Sound(w: Registry, m: Model) {
    m != SignalHistory && m in w.provenance && Partitions(w.shapes(m).fields, w.provenance[m])
  }

  lemma SoundMeansNoDrift(w: Registry, m: Model)
    ensures AssertNoDrift(w, m).Ok? <==> Sound(w, m)
  {
    if m in w.provenance { AcceptsExactlyPartitions(w.shapes(m).fields, w.provenance[m]); }
  }

  predicate ExpiryAllOrNone(targets: set<string>) {
    ("expiry_date" in targets <==> "expiry_source" in targets) && ("expiry_source" in targets <==> "expiry_confidence" in targets)
  }

  lemma PairingsMean(targets: set<string>)
    ensures CheckPairings(PAIRINGS, targets).Ok?
            <==> ("promo_identifier" in targets ==> "promo_price" in targets) && ExpiryAllOrNone(targets)
  {
    hide CheckPairings;
    var promo, expiry := PAIRINGS[0], PAIRINGS[1];
    assert PAIRINGS == [promo, expiry];
    MeetsMeans(promo.0, targets);
    MeetsMeans(expiry.0, targets);
    assert (forall p :: p in PAIRINGS ==> p.0 * targets == {} || p.1 <= targets) <==>
           (promo.0 * targets == {} || promo.1 <= targets) && (expiry.0 * targets == {} || expiry.1 <= targets);
    ExpiryPairing(expiry.0, targets);
  }

  lemma MeetsMeans(a: set<string>, b: set<string>)
    ensures a * b == {} <==> forall c :: c in a ==> c !in b
  {
    if c :| c in a && c in b { assert c in a * b; }
  }

  lemma ExpiryPairing(triple: set<string>, targets: set<string>)
    requires triple == {"expiry_date", "expiry_source", "expiry_confidence"}
    ensures (triple * targets == {} || triple <= targets) <==> ExpiryAllOrNone(targets)
  {
    MeetsMeans(triple, targets);
    assert "expiry_date" in triple && "expiry_source" in triple && "expiry_confidence" in triple;
  }

  /** What a template of a model may be, said without the order of the checks. */
  ghost predicate Admissible(w: Registry, s: SourceMapping, m: Model) {
    && Sound(w, m)
    && s.version >= 1 && s.rename != [] && Distinct(TargetColumns(s))
    && Targets(s) <= w.provenance[m].mappingProduced
    && (forall c :: c in w.shapes(m).required && c in w.provenance[m].mappingProduced ==> c in Targets(s) || c in Guaranteed(m))
    && (m == CurrentPosition ==>
          ("promo_identifier" in Targets(s) ==> "promo_price" in Targets(s)) && ExpiryAllOrNone(Targets(s)))
  }

  lemma CoverageMeans(w: Registry, s: SourceMapping, m: Model)
    requires Sound(w, m)
    ensures CheckCoverage(w, s, m).Ok?
            <==> forall c :: c in w.shapes(m).required && c in w.provenance[m].mappingProduced ==> c in Targets(s) || c in Guaranteed(m)
  {
    SoundMeansNoDrift(w, m);
    var mandatory := w.shapes(m).required * w.provenance[m].mappingProduced - Guaranteed(m);
    assert MandatoryMappingProduced(w, m, Guaranteed(m)) == Ok(mandatory);
  }

  lemma LegalityMeans(w: Registry, s: SourceMapping, m: Model)
    ensures CheckLegality(w, s, m).Ok? <==> Sound(w, m) && Targets(s) <= w.provenance[m].mappingProduced
  {
    SoundMeansNoDrift(w, m);
  }

  /** The typed gate accepts exactly the admissible templates of the type's model, unchanged; an unknown
      type is refused as such whatever the document. */
  lemma TypedGateAcceptsExactly(w: Registry, raw: Option<SourceMapping>, t: string)
    ensures var r := ValidateForType(w, raw, t);
            && (r.Ok? <==> raw.Some? && ModelForType(t).Some? && Admissible(w, raw.value, ModelForType(t).value))
            && (r.Ok? ==> raw == Some(r.value))
            && (ModelForType(t).None? <==> r == Err(InvalidTemplateType))
  {
    if ModelForType(t).Some? && ParseMappingRules(raw).Ok? {
      var s, m := raw.value, ModelForType(t).value;
      LegalityMeans(w, s, m);
      PairingsMean(Targets(s));
      if Sound(w, m) { CoverageMeans(w, s, m); }
    }
  }

  /** The vocabulary of template types and the model each one writes. */
  lemma TemplateTypesAre(t: string)
    ensures ModelForType("snapshot") == Some(CurrentPosition)
    ensures ModelForType("sales") == Some(SaleEvent)
    ensures ModelForType("inventory_change") == Some(ChangeEvent)
    ensures t != "snapshot" && t != "sales" && t != "inventory_change" ==> ModelForType(t) == None
  {
  }

  /** What a refusal says, in the order of the checks: the document itself, then the illegal targets, then the columns
      left unprovided, each named exactly. */
  lemma TypedGateRefusal(w: Registry, raw: Option<SourceMapping>, t: string)
    requires ModelForType(t).Some? && Sound(w, ModelForType(t).value)
    ensures
      var r, m := ValidateForType(w, raw, t), ModelForType(t).value;
      var produced := w.provenance[m].mappingProduced;
      && (raw.None? || raw.value.version < 1 ==> r == Err(Malformed))
      && (raw.Some? && raw.value.version >= 1 ==>
            var s := raw.value;
            var missing := w.shapes(m).required * produced - Guaranteed(m) - Targets(s);
            if !Distinct(TargetColumns(s)) then r == Err(TargetsNotUnique)
            else if s.rename == [] then r == Err(EmptyRename)
            else if !(Targets(s) <= produced) then r == Err(Illegal(Targets(s) - produced))
            else if missing != {} then r == Err(Unprovided(missing))
            else r.Err? ==> m == CurrentPosition && r.error.PairingBroken?)
  {
    var m := ModelForType(t).value;
    SoundMeansNoDrift(w, m);
    if raw.Some? {
      var mandatory := w.shapes(m).required * w.provenance[m].mappingProduced - Guaranteed(m);
      assert mandatory <= Targets(raw.value) <==> mandatory - Targets(raw.value) == {} by {
        SubsetMeansNothingLeft(mandatory, Targets(raw.value));
      }
      PairingErrors(PAIRINGS, Targets(raw.value));
    }
  }

  lemma SubsetMeansNothingLeft(a: set<string>, b: set<string>)
    ensures a <= b <==> a - b == {}
  {
    if !(a <= b) {
      var c :| c in a && c !in b;
      assert c in a - b;
    }
  }

  lemma {:induction false} PairingErrors(pairings: seq<(set<string>, set<string>)>, targets: set<string>)
    ensures CheckPairings(pairings, targets).Err? ==> CheckPairings(pairings, targets).error.PairingBroken?
  {
    if pairings != [] { PairingErrors(pairings[1..], targets); }
  }

  // ---- The suite built from an accepted template ----

  function Deduped(s: seq<string>): (r: seq<string>)
    ensures Distinct(r) && Cols(r) == Cols(s) && |r| <= |s|
    ensures Distinct(s) ==> r == s
  {
    if s == [] then []
    else
      var front, last := Deduped(s[..|s| - 1]), s[|s| - 1];
      assert s == s[..|s| - 1] + [last];
      ColsAppend(s[..|s| - 1], [last]);
      ColsAppend(front, [last]);
      ColsOfOne(last);
      if last in front then
        assert last in Cols(front);
        front
      else
        front + [last]
  }

  datatype SuiteError = OwnsNothing | OffUniverse(columns: set<string>) | ChecksOnUnowned(columns: set<string>)
    | SuiteDrifted(drift: Drift)

  /** The owned-column checks of `materialize_canonical_shape`; the value is the suite's columns. */
  function Materialize(w: Registry, m: Model, ownedColumns: seq<string>, checked: set<string>): (r: Result<seq<string>, SuiteError>)
  {
    var mapped := MappingProduced(w, m);
    if mapped.Err? then Err(SuiteDrifted(mapped.error)) else
    var enriched := EnrichmentProduced(w, m);
    if enriched.Err? then Err(SuiteDrifted(enriched.error)) else
    var owned := Deduped(ownedColumns);
    if owned == [] then Err(OwnsNothing)
    else if !(Cols(owned) <= mapped.value + enriched.value) then
      Err(OffUniverse(Cols(owned) - (mapped.value + enriched.value)))
    else if !(checked <= Cols(owned)) then Err(ChecksOnUnowned(checked - Cols(owned)))
    else Ok(owned)
  }

  /** The columns the consumer's post-mapping validation declares as owned. */
  function OwnedColumns(s: SourceMapping, m: Model): seq<string> {
    if m == CurrentPosition then Deduped(TargetColumns(s) + EnrichmentFields(CURRENT_POSITION)) else TargetColumns(s)
  }

  predicate SourceOwned(w: Registry, m: Model, c: string)
    requires m in w.provenance
  {
    c in w.provenance[m].mappingProduced || c in w.provenance[m].enrichmentProduced
  }

  /** Everything enrichment is the origin of and the model requires is registered, and everything
      registered is a column a source may own. */
  ghost predicate EnrichmentCloses(w: Registry, m: Model)
    requires m in w.provenance
  {
    && w.shapes(m).required * w.provenance[m].enrichmentProduced <= Guaranteed(m)
    && (forall c :: c in Guaranteed(m) ==> SourceOwned(w, m, c))
  }

  ghost predicate CoversRequired(w: Registry, s: SourceMapping, m: Model)
    requires m in w.provenance
  {
    forall c :: c in w.shapes(m).required && SourceOwned(w, m, c) ==> c in Targets(s) || c in Guaranteed(m)
  }

  lemma OwnedIsTargetsAndEnriched(s: SourceMapping, m: Model)
    ensures Cols(OwnedColumns(s, m)) == Targets(s) + Guaranteed(m)
  {
    ColsAppend(TargetColumns(s), EnrichedColumns(m));
    assert m != CurrentPosition ==> Guaranteed(m) == {};
  }

  /** For a template the typed gate accepted: its columns with enrichment's cover every required column a
      source may own, and its suite builds without drift over exactly the columns the contribution has,
      if and only if the enrichment registry closes over the model. */
  lemma GateClosure(w: Registry, raw: Option<SourceMapping>, t: string)
    requires ValidateForType(w, raw, t).Ok?
    ensures var s := raw.value; var m := ModelForType(t).value;
            && m in w.provenance
            && (CoversRequired(w, s, m) <==> w.shapes(m).required * w.provenance[m].enrichmentProduced <= Targets(s) + Guaranteed(m))
            && (Materialize(w, m, OwnedColumns(s, m), {}).Ok? <==> forall c :: c in Guaranteed(m) ==> SourceOwned(w, m, c))
            && (CoversRequired(w, s, m) && Materialize(w, m, OwnedColumns(s, m), {}).Ok? <==> EnrichmentCloses(w, m))
            && (EnrichmentCloses(w, m) ==> exists suite ::
                  && Materialize(w, m, OwnedColumns(s, m), {}) == Ok(suite)
                  && Distinct(suite) && Cols(suite) == Targets(s) + Guaranteed(m))
  {
    TypedGateAcceptsExactly(w, raw, t);
    var s, m := raw.value, ModelForType(t).value;
    SoundMeansNoDrift(w, m);
    OwnedIsTargetsAndEnriched(s, m);
    var p := w.provenance[m];
    var owned := Deduped(OwnedColumns(s, m));
    assert TargetColumns(s)[0] == s.rename[0].1 && s.rename[0].1 in Targets(s);
    assert s.rename[0].1 in Cols(owned);
    NotBothMappedAndEnriched(w, m);
    assert Cols(owned) <= p.mappingProduced + p.enrichmentProduced <==> forall c :: c in Guaranteed(m) ==> SourceOwned(w, m, c);
    CoveredMeans(w, s, m);
  }

  /** Under a sound provenance the two source-owned sets are disjoint, so a mapping's targets hold no
      enrichment-produced column. */
  lemma NotBothMappedAndEnriched(w: Registry, m: Model)
    requires Sound(w, m)
    ensures w.provenance[m].mappingProduced !! w.provenance[m].enrichmentProduced
  {
    var p := w.provenance[m];
    forall c | c in p.mappingProduced && c in p.enrichmentProduced ensures false {
      assert c in p.Sets()[3] && c in p.Sets()[4];
      ClassifiedOnce(c, p, 3, 4);
    }
  }

  lemma CoveredMeans(w: Registry, s: SourceMapping, m: Model)
    requires Admissible(w, s, m)
    ensures CoversRequired(w, s, m) <==> w.shapes(m).required * w.provenance[m].enrichmentProduced <= Targets(s) + Guaranteed(m)
    ensures CoversRequired(w, s, m) <==> w.shapes(m).required * w.provenance[m].enrichmentProduced <= Guaranteed(m)
  {
    NotBothMappedAndEnriched(w, m);
    var p := w.provenance[m];
    var needed := w.shapes(m).required * p.enrichmentProduced;
    forall c | c in needed ensures c !in Targets(s) && SourceOwned(w, m, c) {
    }
    if needed <= Targets(s) + Guaranteed(m) {
      forall c | c in w.shapes(m).required && SourceOwned(w, m, c) ensures c in Targets(s) || c in Guaranteed(m) {
        assert c in p.enrichmentProduced ==> c in needed;
      }
    }
  }

  /** A suite is built if and only if the model's provenance is sound, at least one column is owned, all owned columns
      are ones a source may own, and no check names another; its columns are then the owned ones, once each. */
  lemma MaterializeExactly(w: Registry, m: Model, owned: seq<string>, checked: set<string>)
    ensures
      var r := Materialize(w, m, owned, checked);
      && (r.Ok? <==>
            && Sound(w, m) && owned != [] && (forall c :: c in owned ==> SourceOwned(w, m, c))
            && (forall c :: c in checked ==> c in owned))
      && (r.Ok? ==> Distinct(r.value) && forall c :: c in r.value <==> c in owned)
  {
    SoundMeansNoDrift(w, m);
    ColsAre(owned);
    var once := Deduped(owned);
    ColsAre(once);
    if owned != [] { assert owned[0] in Cols(owned); }
  }

  lemma ColsAre(s: seq<string>)
    ensures forall c :: c in Cols(s) <==> c in s
  {
  }

  // ---- A snapshot template may create hot rows ----

  /** `guaranteed_hot_columns` for a snapshot mapping. */
  function GuaranteedHot(produced: set<string>, s: SourceMapping): set<string> {
    Targets(s) * produced + Cols(EnrichmentFields(CURRENT_POSITION))
  }

  /** The consumer's completeness gate, for a snapshot mapping. */
  function ClassifyHotCompleteness(w: Registry, s: SourceMapping): (r: Result<bool, Drift>) {
    var produced :- MappingProduced(w, CurrentPosition);
    var required :- MandatoryMappingProduced(w, CurrentPosition, Guaranteed(CurrentPosition));
    var hot := GuaranteedHot(produced, s);
    Ok(required <= hot && CheckPairings(PAIRINGS, hot).Ok?)
  }

  /** Among well-formed templates with legal targets, the create-time gate accepts a snapshot template
      exactly when the write-time gate will let it create rows. */
  lemma SnapshotGatesAgree(w: Registry, s: SourceMapping)
    requires Sound(w, CurrentPosition) && ParseMappingRules(Some(s)).Ok?
    requires Targets(s) <= w.provenance[CurrentPosition].mappingProduced
    ensures ValidateForType(w, Some(s), SNAPSHOT).Ok? <==> ClassifyHotCompleteness(w, s) == Ok(true)
  {
    TypedGateAcceptsExactly(w, Some(s), SNAPSHOT);
    SoundMeansNoDrift(w, CurrentPosition);
    var hot := GuaranteedHot(w.provenance[CurrentPosition].mappingProduced, s);
    assert hot == Targets(s) + Guaranteed(CurrentPosition);
    EnrichmentPairsNothing(Targets(s));
  }

  lemma EnrichmentPairsNothing(targets: set<string>)
    ensures CheckPairings(PAIRINGS, targets + Guaranteed(CurrentPosition)).Ok?
            <==> ("promo_identifier" in targets ==> "promo_price" in targets) && ExpiryAllOrNone(targets)
  {
    hide CheckPairings, Guaranteed, EnrichmentFields;
    RegisteredFields();
    PairingsMean(targets + Guaranteed(CurrentPosition));
  }

  // ---- The two gates on event templates ----

  predicate IsEvent(m: Model) { m == SaleEvent || m == ChangeEvent }

  function Other(m: Model): Model
    requires IsEvent(m)
  {
    if m == SaleEvent then ChangeEvent else SaleEvent
  }

  function TypeOf(m: Model): string
    requires IsEvent(m)
  {
    if m == SaleEvent then SALES else INVENTORY_CHANGE
  }

  lemma RoutedMeans(w: Registry, s: SourceMapping, m: Model)
    requires Sound(w, SaleEvent) && Sound(w, ChangeEvent) && IsEvent(m)
    ensures RouteTargetModel(w, s) == Ok(m)
            <==> Targets(s) <= w.provenance[m].mappingProduced && !(Targets(s) <= w.provenance[Other(m)].mappingProduced)
    ensures RouteTargetModel(w, s).Ok? ==> IsEvent(RouteTargetModel(w, s).value)
  {
    SoundMeansNoDrift(w, SaleEvent);
    SoundMeansNoDrift(w, ChangeEvent);
    var targets := Targets(s);
    var none: seq<Model> := [];
    assert Matching(w, targets, none) == Ok(none);
    assert [ChangeEvent] + none == [ChangeEvent];
    assert [SaleEvent] + none == [SaleEvent];
    assert [ChangeEvent][1..] == [];
    assert Matching(w, targets, [ChangeEvent])
        == Ok(if targets <= w.provenance[ChangeEvent].mappingProduced then [ChangeEvent] else []);
    assert EVENT_MODELS[1..] == [ChangeEvent];
  }

  /** The untyped gate refuses a template that fits neither event model, or both, and says how many. */
  lemma RouteRefusal(w: Registry, s: SourceMapping)
    requires Sound(w, SaleEvent) && Sound(w, ChangeEvent)
    ensures
      var sale, change := Targets(s) <= w.provenance[SaleEvent].mappingProduced, Targets(s) <= w.provenance[ChangeEvent].mappingProduced;
      && (RouteTargetModel(w, s) == Err(FitsModels(0)) <==> !sale && !change)
      && (RouteTargetModel(w, s) == Err(FitsModels(2)) <==> sale && change)
  {
    SoundMeansNoDrift(w, SaleEvent);
    SoundMeansNoDrift(w, ChangeEvent);
    var targets := Targets(s);
    var none: seq<Model> := [];
    assert Matching(w, targets, none) == Ok(none);
    assert [ChangeEvent] + none == [ChangeEvent];
    assert [SaleEvent] + none == [SaleEvent];
    assert [ChangeEvent][1..] == [];
    assert Matching(w, targets, [ChangeEvent])
        == Ok(if targets <= w.provenance[ChangeEvent].mappingProduced then [ChangeEvent] else []);
    assert EVENT_MODELS[1..] == [ChangeEvent];
  }

  /** Per template: what the untyped gate accepts for a model the typed gate accepts for its type, and the
      untyped gate refuses an accepted template exactly when the other event model could hold it too. */
  lemma UntypedNarrowsTyped(w: Registry, s: SourceMapping, m: Model)
    requires Sound(w, SaleEvent) && Sound(w, ChangeEvent) && IsEvent(m)
    ensures Validate(w, Some(s)).Ok? && RouteTargetModel(w, s) == Ok(m)
            <==> ValidateForType(w, Some(s), TypeOf(m)).Ok? && !(Targets(s) <= w.provenance[Other(m)].mappingProduced)
  {
    TypedGateAcceptsExactly(w, Some(s), TypeOf(m));
    RoutedMeans(w, s, m);
    CoverageMeans(w, s, m);
    LegalityMeans(w, s, m);
  }

  /** The two gates give an event model the same templates. */
  ghost predicate GatesAgree(w: Registry, m: Model)
    requires IsEvent(m)
  {
    forall s: SourceMapping ::
      ValidateForType(w, Some(s), TypeOf(m)).Ok? <==> Validate(w, Some(s)).Ok? && RouteTargetModel(w, s) == Ok(m)
  }

  /** The columns a template of the model has to provide. */
  function Mandatory(w: Registry, m: Model): set<string>
    requires m in w.provenance
  {
    w.shapes(m).required * w.provenance[m].mappingProduced
  }

  predicate Overlooked(w: Registry, m: Model)
    requires IsEvent(m) && SaleEvent in w.provenance && ChangeEvent in w.provenance
  {
    && Mandatory(w, m) <= w.provenance[Other(m)].mappingProduced
    && w.provenance[m].mappingProduced * w.provenance[Other(m)].mappingProduced != {}
  }

  /** A template that renames each given column to itself. */
  lemma {:induction false} Renaming(columns: set<string>) returns (s: SourceMapping)
    ensures s.version == 1 && s.derive == [] && |s.rename| == |columns|
    ensures Distinct(TargetColumns(s)) && Targets(s) == columns
  {
    if columns == {} {
      s := SourceMapping(1, [], []);
      assert TargetColumns(s) == [];
    } else {
      var c :| c in columns;
      var rest := Renaming(columns - {c});
      s := SourceMapping(1, rest.rename + [(c, c)], []);
      var before := TargetColumns(rest);
      assert TargetColumns(s) == before + [c];
      assert c !in Targets(rest);
      forall i | 0 <= i < |before| ensures before[i] != c {
        assert before[i] in Cols(before);
      }
      ColsAppend(before, [c]);
      ColsOfOne(c);
    }
  }

  lemma SomeTargetIsNotTheirs(w: Registry, s: SourceMapping, m: Model)
    requires Sound(w, SaleEvent) && Sound(w, ChangeEvent) && IsEvent(m)
    requires Admissible(w, s, m) && !Overlooked(w, m)
    ensures !(Targets(s) <= w.provenance[Other(m)].mappingProduced)
  {
    var mine, theirs := w.provenance[m].mappingProduced, w.provenance[Other(m)].mappingProduced;
    var c := TargetColumns(s)[0];
    assert c in Targets(s);
    assert Mandatory(w, m) <= Targets(s);
    assert c in theirs ==> c in mine * theirs;
  }

  /** A template the typed gate accepts and the untyped one refuses. */
  lemma OverlookedTemplate(w: Registry, m: Model) returns (s: SourceMapping)
    requires Sound(w, SaleEvent) && Sound(w, ChangeEvent) && IsEvent(m) && Overlooked(w, m)
    ensures ValidateForType(w, Some(s), TypeOf(m)).Ok?
    ensures !(Validate(w, Some(s)).Ok? && RouteTargetModel(w, s) == Ok(m))
  {
    hide Validate, ValidateForType, RouteTargetModel;
    var shared :| shared in w.provenance[m].mappingProduced * w.provenance[Other(m)].mappingProduced;
    s := Renaming(Mandatory(w, m) + {shared});
    TypedGateAcceptsExactly(w, Some(s), TypeOf(m));
    UntypedNarrowsTyped(w, s, m);
  }

  /** The gates agree on an event model exactly when the model's mandatory columns do not all belong to
      the other model too (or the two models share no column at all). */
  lemma {:induction false} GatesAgreeExactlyWhen(w: Registry, m: Model)
    requires Sound(w, SaleEvent) && Sound(w, ChangeEvent) && IsEvent(m)
    ensures GatesAgree(w, m) <==> !Overlooked(w, m)
  {
    hide Validate, ValidateForType, RouteTargetModel, Admissible, Partitions;
    if Overlooked(w, m) {
      var s := OverlookedTemplate(w, m);
      assert ValidateForType(w, Some(s), TypeOf(m)).Ok?;
    } else {
      forall s: SourceMapping ensures
        ValidateForType(w, Some(s), TypeOf(m)).Ok? <==> Validate(w, Some(s)).Ok? && RouteTargetModel(w, s) == Ok(m)
      {
        UntypedNarrowsTyped(w, s, m);
        TypedGateAcceptsExactly(w, Some(s), TypeOf(m));
        if Admissible(w, s, m) {
          SomeTargetIsNotTheirs(w, s, m);
        }
      }
    }
  }

  /** When the gates agree on both event models, the untyped gate accepts a document exactly when one of
      the two typed gates does. */
  lemma UntypedIsEitherTyped(w: Registry, raw: Option<SourceMapping>)
    requires Sound(w, SaleEvent) && Sound(w, ChangeEvent)
    requires !Overlooked(w, SaleEvent) && !Overlooked(w, ChangeEvent)
    ensures Validate(w, raw).Ok? <==> ValidateForType(w, raw, SALES).Ok? || ValidateForType(w, raw, INVENTORY_CHANGE).Ok?
    ensures !(ValidateForType(w, raw, SALES).Ok? && ValidateForType(w, raw, INVENTORY_CHANGE).Ok?)
  {
    if raw.Some? {
      GatesAgreeExactlyWhen(w, SaleEvent);
      GatesAgreeExactlyWhen(w, ChangeEvent);
      var s := raw.value;
      RoutedMeans(w, s, SaleEvent);
      assert ValidateForType(w, Some(s), TypeOf(SaleEvent)).Ok? <==> Validate(w, Some(s)).Ok? && RouteTargetModel(w, s) == Ok(SaleEvent);
      assert ValidateForType(w, Some(s), TypeOf(ChangeEvent)).Ok? <==> Validate(w, Some(s)).Ok? && RouteTargetModel(w, s) == Ok(ChangeEvent);
    }
  }

  // ---- The registered provenance ----

  const COMMON_CONSUMER_INJECTED :=
    {"tenant_id", "store_id", "mapping_version_id", "trace_id", "dis_channel", "ingest_metadata"}

  const COMMON_DB_GENERATED := {"id", "last_updated_at"}

  const POSITION_PROVENANCE := ColumnProvenance(
    COMMON_CONSUMER_INJECTED + {"last_source_event_at"},
    COMMON_DB_GENERATED,
    {"velocity_7day", "stock_age_days", "unit_cost_trend_30day", "attribute_staleness_map", "yesterday_retail_price"},
    {"sku_id", "sku_variant", "sku_lot_batch", "barcode", "product_name", "product_description", "product_category",
     "product_sub_category", "product_department", "supplier_id", "packaging_type", "sku_size", "unit_of_measure",
     "current_retail_price", "unit_cost", "promo_price", "promo_identifier", "stock_qty", "lead_time_days",
     "expiry_date", "receipt_date", "expiry_source", "expiry_confidence", "regulatory_flag", "regulatory_type",
     "currency", "reorder_point", "sku_status"},
    {"tax_treatment"})

  const SALE_PROVENANCE := ColumnProvenance(
    COMMON_CONSUMER_INJECTED
      + {"source_id", "source_event_id", "store_sku_current_position_id", "related_sale_event_id", "tax_treatment"},
    COMMON_DB_GENERATED,
    {},
    {"event_date", "sku_id", "sku_variant", "sku_lot_batch", "event_subtype", "source_sale_timestamp",
     "transaction_id", "line_item_seq", "quantity", "unit_retail_price", "unit_sale_price", "discount_amount",
     "discount_pct", "unit_cost", "promo_identifier", "tax_amount", "currency", "payment_method", "customer_token",
     "sale_channel"})

  const CHANGE_PROVENANCE := ColumnProvenance(
    COMMON_CONSUMER_INJECTED
      + {"source_id", "source_event_id", "store_sku_current_position_id", "numeric_value_before",
         "numeric_value_after", "numeric_change"},
    COMMON_DB_GENERATED,
    {},
    {"event_date", "sku_id", "sku_variant", "sku_lot_batch", "event_category", "event_subtype",
     "source_event_timestamp", "effective_from", "effective_until", "attribute_name", "value_before", "value_after",
     "reason_code", "reason_note", "change_context"})

  const PROVENANCE :=
    map[CurrentPosition := POSITION_PROVENANCE, SaleEvent := SALE_PROVENANCE, ChangeEvent := CHANGE_PROVENANCE]

  /** Whatever the canonical models' fields, the registered provenance is closed under enrichment. */
  lemma RegisteredProvenanceCloses(shapes: Model -> Shape, m: Model)
    requires m in PROVENANCE
    ensures EnrichmentCloses(Registry(shapes, PROVENANCE), m)
  {
    RegisteredFields();
    var w := Registry(shapes, PROVENANCE);
    if m == CurrentPosition {
      assert "currency" in POSITION_PROVENANCE.mappingProduced;
      assert "tax_treatment" in POSITION_PROVENANCE.enrichmentProduced;
    } else {
      assert EnrichedColumns(m) == [];
    }
  }

  /** With the registered provenance the gates agree as soon as each event model requires its own timestamp. */
  lemma RegisteredGatesAgree(shapes: Model -> Shape, raw: Option<SourceMapping>)
    requires "source_sale_timestamp" in shapes(SaleEvent).required
    requires "source_event_timestamp" in shapes(ChangeEvent).required
    requires Sound(Registry(shapes, PROVENANCE), SaleEvent) && Sound(Registry(shapes, PROVENANCE), ChangeEvent)
    ensures var w := Registry(shapes, PROVENANCE);
            Validate(w, raw).Ok? <==> ValidateForType(w, raw, SALES).Ok? || ValidateForType(w, raw, INVENTORY_CHANGE).Ok?
  {
    var w := Registry(shapes, PROVENANCE);
    var sale, change := "source_sale_timestamp", "source_event_timestamp";
    assert |sale| == 21 && |change| == 22;
    assert sale in Mandatory(w, SaleEvent);
    assert change in Mandatory(w, ChangeEvent);
    assert sale !in CHANGE_PROVENANCE.mappingProduced;
    assert change !in SALE_PROVENANCE.mappingProduced;
    UntypedIsEitherTyped(w, raw);
  }
}
