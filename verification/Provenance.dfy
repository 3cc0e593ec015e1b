/** Who writes each canonical column, and the check that the classification is a partition. */
module Provenance {
  import opened Wrappers

  datatype Model = CurrentPosition | SaleEvent | ChangeEvent | SignalHistory

  /** A canonical model's fields and those of them that are not optional. */
  datatype Shape = Shape(fields: set<string>, required: set<string>)

  datatype ColumnProvenance = ColumnProvenance(
    consumerInjected: set<string>,
    dbGenerated: set<string>,
    computeOwned: set<string>,
    mappingProduced: set<string>,
    enrichmentProduced: set<string> := {})
  {
    function Sets(): seq<set<string>> {
      [consumerInjected, dbGenerated, computeOwned, mappingProduced, enrichmentProduced]
    }
  }

  /** The canonical models and the provenance registered for them. */
  datatype Registry = Registry(shapes: Model -> Shape, provenance: map<Model, ColumnProvenance>)

  datatype Drift =
    | DailyCompute
    | Unregistered
    | ClassifiedTwice(first: nat, second: nat, columns: set<string>)
    | Unclassified(columns: set<string>)
    | Stale(columns: set<string>)

  function Union(sets: seq<set<string>>): (u: set<string>)
    ensures forall c :: c in u <==> exists i :: 0 <= i < |sets| && c in sets[i]
  {
    if sets == [] then {} else sets[0] + Union(sets[1..])
  }

  /** The first pair (i, j), in nested-loop order from (i, j), that shares a column. */
  function FirstOverlap(sets: seq<set<string>>, i: nat, j: nat): (r: Option<(nat, nat)>)
    requires i < j <= |sets|
    decreases |sets| - i, |sets| - j
  {
    if j < |sets| then
      if sets[i] * sets[j] != {} then Some((i, j)) else FirstOverlap(sets, i, j + 1)
    else if i + 2 <= |sets| then
      FirstOverlap(sets, i + 1, i + 2)
    else None
  }

  /** (a, b) comes at or after (i, j) in nested-loop order. */
  predicate AtOrAfter(a: nat, b: nat, i: nat, j: nat) {
    a > i || (a == i && b >= j)
  }

  predicate Earlier(a: nat, b: nat, found: Option<(nat, nat)>) {
    found.None? || !AtOrAfter(a, b, found.value.0, found.value.1)
  }

  /** The search finds a pair exactly when a pair is left to find, and finds the earliest. */
  lemma {:induction false} FirstOverlapIsFirst(sets: seq<set<string>>, i: nat, j: nat)
    requires i < j <= |sets|
    ensures var r := FirstOverlap(sets, i, j);
            && (r.Some? ==>
              && AtOrAfter(r.value.0, r.value.1, i, j)
              && r.value.0 < r.value.1 < |sets| && sets[r.value.0] * sets[r.value.1] != {})
            && (forall a, b :: 0 <= a < b < |sets| && AtOrAfter(a, b, i, j) && Earlier(a, b, r) ==> sets[a] * sets[b] == {})
    decreases |sets| - i, |sets| - j
  {
    if j < |sets| {
      if sets[i] * sets[j] == {} { FirstOverlapIsFirst(sets, i, j + 1); }
    } else if i + 2 <= |sets| {
      FirstOverlapIsFirst(sets, i + 1, i + 2);
    }
  }

  function AssertPartitionConsistent(fields: set<string>, p: ColumnProvenance): (r: Result<(), Drift>) {
    var sets := p.Sets();
    var overlap := FirstOverlap(sets, 0, 1);
    if overlap.Some? then
      FirstOverlapIsFirst(sets, 0, 1);
      var (i, j) := overlap.value;
      Err(ClassifiedTwice(i, j, sets[i] * sets[j]))
    else
      var classified := Union(sets);
      if !(fields <= classified) then Err(Unclassified(fields - classified))
      else if !(classified <= fields) then Err(Stale(classified - fields))
      else Ok(())
  }

  /** The number of the five sets that hold a column. */
  function Classifications(c: string, p: ColumnProvenance): nat {
    |set i | 0 <= i < 5 && c in p.Sets()[i]|
  }

  /** A true partition: every field in exactly one set, everything else in none. */
  ghost predicate Partitions(fields: set<string>, p: ColumnProvenance) {
    forall c: string :: Classifications(c, p) == if c in fields then 1 else 0
  }

  lemma ClassifiedOnce(c: string, p: ColumnProvenance, i: nat, j: nat)
    requires i < j < 5 && c in p.Sets()[i] && c in p.Sets()[j]
    ensures Classifications(c, p) > 1
  {
    var holders := set k | 0 <= k < 5 && c in p.Sets()[k];
    assert {i, j} <= holders;
    Bigger({i, j}, holders);
  }

  lemma {:induction false} Bigger<T>(small: set<T>, big: set<T>)
    requires small <= big
    ensures |small| <= |big|
  {
    if x :| x in small {
      Bigger(small - {x}, big - {x});
      assert |small| == |small - {x}| + 1 && |big| == |big - {x}| + 1;
    } else {
      assert small == {};
    }
  }

  lemma NotInBoth(sets: seq<set<string>>, c: string, i: nat, k: nat)
    requires |sets| > 0 && FirstOverlap(sets, 0, 1).None?
    requires i < |sets| && k < |sets| && c in sets[i]
    ensures c in sets[k] <==> k == i
  {
    FirstOverlapIsFirst(sets, 0, 1);
    if k < i {
      assert c !in sets[k] * sets[i];
    } else if i < k {
      assert c !in sets[i] * sets[k];
    }
  }

  lemma {:induction false} OneHolder(c: string, p: ColumnProvenance)
    requires FirstOverlap(p.Sets(), 0, 1).None?
    ensures Classifications(c, p) == if c in Union(p.Sets()) then 1 else 0
  {
    var sets := p.Sets();
    FirstOverlapIsFirst(sets, 0, 1);
    var holders := set k | 0 <= k < 5 && c in sets[k];
    if c in Union(sets) {
      var i :| 0 <= i < |sets| && c in sets[i];
      forall k | k in holders ensures k == i {
        NotInBoth(sets, c, i, k);
      }
      assert holders == {i};
    } else {
      assert holders == {};
    }
  }

  /** The check accepts exactly the true partitions of the model's fields. */
  lemma {:induction false} AcceptsExactlyPartitions(fields: set<string>, p: ColumnProvenance)
    ensures AssertPartitionConsistent(fields, p).Ok? <==> Partitions(fields, p)
  {
    var sets := p.Sets();
    FirstOverlapIsFirst(sets, 0, 1);
    var overlap := FirstOverlap(sets, 0, 1);
    if overlap.Some? {
      var (i, j) := overlap.value;
      var c :| c in sets[i] * sets[j];
      ClassifiedOnce(c, p, i, j);
    } else {
      forall c: string ensures Classifications(c, p) == if c in Union(sets) then 1 else 0 {
        OneHolder(c, p);
      }
      if Partitions(fields, p) {
        forall c: string ensures c in fields <==> c in Union(sets) {
          OneHolder(c, p);
        }
      }
    }
  }

  /** A refusal names exactly the columns at fault, and the overlap it names is the first one. */
  lemma {:induction false} RefusalNamesTheColumns(fields: set<string>, p: ColumnProvenance, c: string)
    ensures var r := AssertPartitionConsistent(fields, p);
            r.Err? ==> match r.error
              case ClassifiedTwice(i, j, columns) =>
                && i < j < 5 && (c in columns <==> c in p.Sets()[i] && c in p.Sets()[j])
                && (forall a, b :: 0 <= a < b < 5 && !AtOrAfter(a, b, i, j) ==> p.Sets()[a] * p.Sets()[b] == {})
              case Unclassified(columns) => c in columns <==> c in fields && Classifications(c, p) == 0
              case Stale(columns) => c in columns <==> c !in fields && Classifications(c, p) == 1
              case _ => false
  {
    FirstOverlapIsFirst(p.Sets(), 0, 1);
    if FirstOverlap(p.Sets(), 0, 1).None? { OneHolder(c, p); }
  }

  function AssertNoDrift(w: Registry, m: Model): (r: Result<(), Drift>) {
    if m == SignalHistory then Err(DailyCompute)
    else if m !in w.provenance then Err(Unregistered)
    else AssertPartitionConsistent(w.shapes(m).fields, w.provenance[m])
  }

  function MappingProduced(w: Registry, m: Model): (r: Result<set<string>, Drift>)
    ensures r.Ok? ==> m != SignalHistory && m in w.provenance
  {
    var _ :- AssertNoDrift(w, m);
    Ok(w.provenance[m].mappingProduced)
  }

  function EnrichmentProduced(w: Registry, m: Model): (r: Result<set<string>, Drift>)
    ensures r.Ok? ==> m != SignalHistory && m in w.provenance
  {
    var _ :- AssertNoDrift(w, m);
    Ok(w.provenance[m].enrichmentProduced)
  }

  function MandatoryMappingProduced(w: Registry, m: Model, guaranteed: set<string>): (r: Result<set<string>, Drift>) {
    var produced :- MappingProduced(w, m);
    Ok(w.shapes(m).required * produced - guaranteed)
  }
}
