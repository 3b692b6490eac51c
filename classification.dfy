/**
 * The zone classifier `classifyBPI` of BPI_functions.py: every rule of the
 * classification table is evaluated as a chain of four range predicates
 * (depth, slope, fine BPI, broad BPI); the per-rule masks are merged with
 * first-write-wins in table order, and each distinct cell value of the merged
 * raster is labelled through the zone key.
 */
module Classification {
  import opened Wrappers
  import opened RangePredicate
  import opened ZoneKey

  /** One row of the classification table. */
  datatype Rule = Rule(classId: int, zone: string,
                       depth: Bounds, slope: Bounds, fine: Bounds, broad: Bounds)

  /** The four input rasters: bathymetry, slope, standardized fine and broad BPI. */
  datatype Layers = Layers(bathy: seq<real>, slope: seq<real>, fineBpi: seq<real>, broadBpi: seq<real>)

  datatype ClassifyError = NoValidClasses

  /** The merged zone raster and the zone name given to each of its values. */
  datatype Classified = Classified(zones: seq<int>, labels: map<int, string>)

  predicate Aligned(l: Layers) {
    |l.slope| == |l.bathy| && |l.fineBpi| == |l.bathy| && |l.broadBpi| == |l.bathy|
  }

  predicate AllUnconstrained(r: Rule) {
    Unconstrained(r.depth) && Unconstrained(r.slope) && Unconstrained(r.fine) && Unconstrained(r.broad)
  }

  /** Every criterion of the rule holds at cell `j` (an open criterion always holds). */
  predicate Matches(r: Rule, l: Layers, j: nat)
    requires Aligned(l) && j < |l.bathy|
  {
    Qualifies(r.depth, l.bathy[j]) && Qualifies(r.slope, l.slope[j]) &&
    Qualifies(r.fine, l.fineBpi[j]) && Qualifies(r.broad, l.broadBpi[j])
  }

  /** The result of one stage as the true value of the next one. */
  function Carry(m: Option<seq<int>>): TrueVal {
    if m.Some? then Grid(m.value) else Absent
  }

  /** The chain of four `run_con` calls for one rule. */
  function RuleMask(r: Rule, l: Layers): (m: Option<seq<int>>)
    requires Aligned(l)
    ensures m.None? <==> AllUnconstrained(r)
    ensures m.Some? ==> |m.value| == |l.bathy|
    ensures m.Some? ==> forall j :: 0 <= j < |l.bathy| ==>
      m.value[j] == if Matches(r, l, j) then r.classId else 0
  {
    var outCon := RunCon(r.depth, l.bathy, Const(r.classId), None);
    var outCon2 := RunCon(r.slope, l.slope, Carry(outCon), Some(r.classId));
    var outCon3 := RunCon(r.fine, l.fineBpi, Carry(outCon2), Some(r.classId));
    RunCon(r.broad, l.broadBpi, Carry(outCon3), Some(r.classId))
  }

  /** The list `grids`: the masks of the rules that yield one, in table order. */
  function Masks(rules: seq<Rule>, l: Layers): (gs: seq<seq<int>>)
    requires Aligned(l)
    ensures |gs| <= |rules|
    ensures forall k :: 0 <= k < |gs| ==> |gs[k]| == |l.bathy|
    ensures |gs| == 0 <==> forall k :: 0 <= k < |rules| ==> AllUnconstrained(rules[k])
  {
    if |rules| == 0 then []
    else
      var rest := Masks(rules[1..], l);
      assert forall k :: 0 < k < |rules| ==> rules[k] == rules[1..][k - 1];
      match RuleMask(rules[0], l)
      case Some(m) => [m] + rest
      case None => rest
  }

  lemma {:induction false} MasksAppend(a: seq<Rule>, b: seq<Rule>, l: Layers)
    requires Aligned(l)
    ensures Masks(a + b, l) == Masks(a, l) + Masks(b, l)
  {
    if |a| > 0 {
      assert (a + b)[0] == a[0];
      assert (a + b)[1..] == a[1..] + b;
      MasksAppend(a[1..], b, l);
    } else {
      assert a + b == b;
    }
  }

  /** The value the merge gives cell `j`: that of the first grid nonzero there, else 0. */
  function FirstHit(gs: seq<seq<int>>, j: nat): int
    requires forall k :: 0 <= k < |gs| ==> j < |gs[k]|
  {
    if |gs| == 0 then 0
    else if gs[0][j] != 0 then gs[0][j]
    else FirstHit(gs[1..], j)
  }

  /** FirstHit is the first nonzero value, and 0 exactly when every grid is 0 there. */
  lemma {:induction false} FirstHitIsFirstNonzero(gs: seq<seq<int>>, j: nat)
    requires forall k :: 0 <= k < |gs| ==> j < |gs[k]|
    ensures FirstHit(gs, j) == 0 <==> forall k :: 0 <= k < |gs| ==> gs[k][j] == 0
    ensures forall k :: 0 <= k < |gs| && gs[k][j] != 0 && (forall m :: 0 <= m < k ==> gs[m][j] == 0) ==>
      FirstHit(gs, j) == gs[k][j]
  {
    if |gs| > 0 {
      FirstHitIsFirstNonzero(gs[1..], j);
      assert forall k :: 0 < k < |gs| ==> gs[k] == gs[1..][k - 1];
    }
  }

  /** Appending a grid changes a cell only where the earlier grids left 0. */
  lemma {:induction false} FirstHitSnoc(gs: seq<seq<int>>, g: seq<int>, j: nat)
    requires forall k :: 0 <= k < |gs| ==> j < |gs[k]|
    requires j < |g|
    ensures FirstHit(gs + [g], j) == if FirstHit(gs, j) != 0 then FirstHit(gs, j) else g[j]
  {
    if |gs| == 0 {
      assert gs + [g] == [g];
      assert [g][1..] == [];
    } else {
      assert (gs + [g])[0] == gs[0];
      assert (gs + [g])[1..] == gs[1..] + [g];
      FirstHitSnoc(gs[1..], g, j);
    }
  }

  /** A cell classified by earlier grids is never reassigned by later ones. */
  lemma {:induction false} ClassifiedCellsStay(gs: seq<seq<int>>, later: seq<seq<int>>, j: nat)
    requires forall k :: 0 <= k < |gs| ==> j < |gs[k]|
    requires forall k :: 0 <= k < |later| ==> j < |later[k]|
    requires FirstHit(gs, j) != 0
    ensures FirstHit(gs + later, j) == FirstHit(gs, j)
  {
    if |gs| > 0 {
      assert (gs + later)[0] == gs[0];
      if gs[0][j] == 0 {
        assert (gs + later)[1..] == gs[1..] + later;
        ClassifiedCellsStay(gs[1..], later, j);
      }
    }
  }

  /** Reference classification: the class id of the first rule in table order
      that constrains something, holds at cell `j` and has a nonzero id; else 0. */
  function Winner(rules: seq<Rule>, l: Layers, j: nat): int
    requires Aligned(l) && j < |l.bathy|
  {
    if |rules| == 0 then 0
    else if !AllUnconstrained(rules[0]) && Matches(rules[0], l, j) && rules[0].classId != 0 then rules[0].classId
    else Winner(rules[1..], l, j)
  }

  /** Merging the masks of the rules gives the reference classification. */
  lemma {:induction false} MergedMasksAreWinner(rules: seq<Rule>, l: Layers, j: nat)
    requires Aligned(l) && j < |l.bathy|
    ensures FirstHit(Masks(rules, l), j) == Winner(rules, l, j)
  {
    if |rules| > 0 {
      MergedMasksAreWinner(rules[1..], l, j);
      var rest := Masks(rules[1..], l);
      match RuleMask(rules[0], l)
      case Some(m) =>
        assert Masks(rules, l) == [m] + rest;
        assert ([m] + rest)[1..] == rest;
      case None =>
    }
  }

  /** The merge loop: `merge_grid = Con(merge_grid, grids[i], merge_grid, "VALUE = 0")`. */
  method MergeGrids(grids: seq<seq<int>>, n: nat) returns (merged: seq<int>)
    requires |grids| > 0
    requires forall k :: 0 <= k < |grids| ==> |grids[k]| == n
    ensures |merged| == n
    ensures forall j :: 0 <= j < n ==> merged[j] == FirstHit(grids, j)
  {
    merged := grids[0];
    forall j | 0 <= j < n ensures merged[j] == FirstHit(grids[..1], j) {
      assert grids[..1][1..] == [];
    }
    var i := 1;
    while i < |grids|
      invariant 1 <= i <= |grids|
      invariant |merged| == n
      invariant forall j :: 0 <= j < n ==> merged[j] == FirstHit(grids[..i], j)
    {
      var g := grids[i];
      merged := seq(n, j requires 0 <= j < n => if merged[j] == 0 then g[j] else merged[j]);
      forall j | 0 <= j < n ensures merged[j] == FirstHit(grids[..i + 1], j) {
        assert grids[..i + 1] == grids[..i] + [g];
        FirstHitSnoc(grids[..i], g, j);
      }
      i := i + 1;
    }
    assert grids[..i] == grids;
  }

  /** The zone-key entries of the table. */
  function Entries(rules: seq<Rule>): (es: seq<Entry>)
    ensures |es| == |rules|
    ensures forall k :: 0 <= k < |rules| ==> es[k] == Entry(rules[k].classId, rules[k].zone)
  {
    seq(|rules|, k requires 0 <= k < |rules| => Entry(rules[k].classId, rules[k].zone))
  }

  /** The rows of the merged raster's attribute table: each distinct cell value once. */
  function TableRows(cells: seq<int>): (rows: seq<int>)
    ensures forall v :: v in rows <==> v in cells
    ensures forall a, b :: 0 <= a < b < |rows| ==> rows[a] != rows[b]
  {
    if |cells| == 0 then []
    else
      var rows := TableRows(cells[..|cells| - 1]);
      assert forall v :: v in cells <==> v in cells[..|cells| - 1] || v == cells[|cells| - 1];
      if cells[|cells| - 1] in rows then rows else rows + [cells[|cells| - 1]]
  }

  /** The cursor loop: every row of the merged raster's table gets its zone from the key. */
  method LabelZones(merged: seq<int>, key: map<string, string>) returns (labels: map<int, string>)
    ensures forall v :: v in labels <==> v in merged
    ensures forall v :: v in labels ==> labels[v] == Lookup(key, v)
  {
    var rows := TableRows(merged);
    labels := map[];
    var i := 0;
    while i < |rows|
      invariant 0 <= i <= |rows|
      invariant forall v :: v in labels <==> v in rows[..i]
      invariant forall v :: v in labels ==> labels[v] == Lookup(key, v)
    {
      var val := rows[i];
      labels := labels[val := Lookup(key, val)];
      assert rows[..i + 1] == rows[..i] + [val];
      i := i + 1;
    }
    assert rows[..i] == rows;
  }

  /** What one more turn of the rule loop adds to `grids` and to the key. */
  lemma RulePrefixStep(rules: seq<Rule>, i: nat, l: Layers)
    requires Aligned(l) && i < |rules|
    ensures Masks(rules[..i + 1], l) ==
      Masks(rules[..i], l) + (if RuleMask(rules[i], l).Some? then [RuleMask(rules[i], l).value] else [])
    ensures KeyOf(Entries(rules[..i + 1])) ==
      KeyOf(Entries(rules[..i]))[Str(rules[i].classId) := rules[i].zone]
  {
    assert rules[..i + 1] == rules[..i] + [rules[i]];
    MasksAppend(rules[..i], [rules[i]], l);
    assert [rules[i]][1..] == [];
    assert Entries(rules[..i + 1])[..i] == Entries(rules[..i]);
  }

  /** The rule loop: register every rule's zone, then keep its mask if it yields one. */
  method EvaluateRules(rules: seq<Rule>, l: Layers) returns (grids: seq<seq<int>>, key: map<string, string>)
    requires Aligned(l)
    ensures grids == Masks(rules, l)
    ensures key == KeyOf(Entries(rules))
  {
    grids := [];
    key := map["0" := "None"];
    var i := 0;
    while i < |rules|
      invariant 0 <= i <= |rules|
      invariant grids == Masks(rules[..i], l)
      invariant key == KeyOf(Entries(rules[..i]))
    {
      var item := rules[i];
      key := key[Str(item.classId) := item.zone];
      var outCon4 := RuleMask(item, l);
      if outCon4.Some? {
        grids := grids + [outCon4.value];
      }
      RulePrefixStep(rules, i, l);
      i := i + 1;
    }
    assert rules[..i] == rules;
  }

  /**
   * `classifyBPI`: evaluate every rule, fail with NoValidClasses when none
   * yields a mask, merge the masks first-write-wins and label the result.
   */
  method ClassifyBpi(rules: seq<Rule>, l: Layers) returns (r: Result<Classified, ClassifyError>)
    requires Aligned(l)
    requires |l.bathy| > 0
    ensures r.Failure? <==> forall k :: 0 <= k < |rules| ==> AllUnconstrained(rules[k])
    ensures r.Success? ==> |r.value.zones| == |l.bathy|
    ensures r.Success? ==> forall j :: 0 <= j < |l.bathy| ==> r.value.zones[j] == Winner(rules, l, j)
    ensures r.Success? ==> forall v :: v in r.value.labels <==> v in r.value.zones
    ensures r.Success? ==> forall v :: v in r.value.labels ==> r.value.labels[v] == Label(Entries(rules), v)
  {
    var grids, key := EvaluateRules(rules, l);
    if |grids| == 0 {
      return Failure(NoValidClasses);
    }
    var merged := MergeGrids(grids, |l.bathy|);
    forall j | 0 <= j < |l.bathy| ensures merged[j] == Winner(rules, l, j) {
      MergedMasksAreWinner(rules, l, j);
    }
    var labels := LabelZones(merged, key);
    forall v | v in labels ensures labels[v] == Label(Entries(rules), v) {
      LookupIsLabel(Entries(rules), v);
    }
    r := Success(Classified(merged, labels));
  }
}
