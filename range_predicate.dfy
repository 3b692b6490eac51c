/**
 * The range predicate `run_con` of BPI_functions.py: a cell-wise conditional
 * select over one input raster, driven by an optional lower and an optional
 * upper bound. A raster is a flat sequence of cells; all rasters of one
 * evaluation have the same length.
 */
module RangePredicate {
  import opened Wrappers

  /** The value a qualifying cell receives: a constant class id, the raster
      produced by an earlier stage, or nothing (Python's `None`). */
  datatype TrueVal = Const(id: int) | Grid(cells: seq<int>) | Absent

  /** The lower and upper bound of one criterion; `None` leaves that side open. */
  datatype Bounds = Bounds(lower: Option<real>, upper: Option<real>)

  predicate Unconstrained(b: Bounds) {
    b.lower.None? && b.upper.None?
  }

  /** Reference reading of a criterion: strictly between two bounds, at least
      a lone lower bound, at most a lone upper bound; no bound admits every cell. */
  predicate Qualifies(b: Bounds, v: real) {
    (b.lower.Some? && b.upper.Some? ==> b.lower.value < v < b.upper.value) &&
    (b.lower.Some? && b.upper.None? ==> b.lower.value <= v) &&
    (b.lower.None? && b.upper.Some? ==> v <= b.upper.value)
  }

  /** The true value after a missing one has been replaced by `true_alt`. */
  function Effective(trueVal: TrueVal, trueAlt: Option<int>): (t: TrueVal)
    ensures !trueVal.Absent? ==> t == trueVal
    ensures trueVal.Absent? && trueAlt.Some? ==> t == Const(trueAlt.value)
    ensures trueVal.Absent? && trueAlt.None? ==> t.Absent?
  {
    if trueVal.Absent? then
      if trueAlt.Some? then Const(trueAlt.value) else Absent
    else
      trueVal
  }

  /** What the engine needs to evaluate a criterion: a raster true value
      aligned with the input, and a true value at all when a bound is set. */
  predicate Fits(b: Bounds, inGrid: seq<real>, t: TrueVal) {
    (t.Grid? ==> |t.cells| == |inGrid|) &&
    (!Unconstrained(b) ==> !t.Absent?)
  }

  /** The true value at cell `i`. */
  function ValueAt(t: TrueVal, i: nat): int
    requires t.Const? || (t.Grid? && i < |t.cells|)
  {
    if t.Const? then t.id else t.cells[i]
  }

  /** The engine's `Con(in, trueValue, falseValue, where)`, cell by cell. */
  function Con(inGrid: seq<real>, t: TrueVal, f: int, where: real -> bool): (r: seq<int>)
    requires t.Const? || (t.Grid? && |t.cells| == |inGrid|)
    ensures |r| == |inGrid|
    ensures forall i :: 0 <= i < |inGrid| ==> r[i] == if where(inGrid[i]) then ValueAt(t, i) else f
  {
    seq(|inGrid|, i requires 0 <= i < |inGrid| =>
      if where(inGrid[i]) then ValueAt(t, i) else f)
  }

  /**
   * `run_con(lower_bounds, upper_bounds, in_grid, true_val, true_alt)`.
   * With a bound set, a cell gets the true value when it qualifies and 0
   * otherwise; with no bound, a raster true value is passed through unchanged
   * and a constant one gives no raster at all.
   */
  function RunCon(b: Bounds, inGrid: seq<real>, trueVal: TrueVal, trueAlt: Option<int>): (r: Option<seq<int>>)
    requires Fits(b, inGrid, Effective(trueVal, trueAlt))
    ensures r.Some? ==> |r.value| == |inGrid|
    ensures Unconstrained(b) && Effective(trueVal, trueAlt).Grid? ==> r == Some(Effective(trueVal, trueAlt).cells)
    ensures Unconstrained(b) && !Effective(trueVal, trueAlt).Grid? ==> r.None?
    ensures !Unconstrained(b) ==>
      r.Some? &&
      forall i :: 0 <= i < |inGrid| ==>
        r.value[i] == if Qualifies(b, inGrid[i]) then ValueAt(Effective(trueVal, trueAlt), i) else 0
  {
    var t := Effective(trueVal, trueAlt);
    var outGrid :=
      if b.lower.Some? then
        var lo := b.lower.value;
        if b.upper.Some? then
          var hi := b.upper.value;
          var outGridA := Con(inGrid, t, 0, v => v < hi);
          var both := Con(inGrid, Grid(outGridA), 0, v => v > lo);
          assert forall i :: 0 <= i < |inGrid| ==>
            both[i] == if lo < inGrid[i] < hi then ValueAt(t, i) else 0;
          Some(both)
        else
          Some(Con(inGrid, t, 0, v => v >= lo))
      else if b.upper.Some? then
        var hi := b.upper.value;
        Some(Con(inGrid, t, 0, v => v <= hi))
      else
        None;
    if outGrid.None? && t.Grid? then Some(t.cells) else outGrid
  }

  /** A cell lying exactly on either bound of a two-sided range gets 0. */
  lemma BoundaryExcluded(lo: real, hi: real, inGrid: seq<real>, c: int, i: nat)
    requires i < |inGrid| && (inGrid[i] == lo || inGrid[i] == hi)
    ensures var r := RunCon(Bounds(Some(lo), Some(hi)), inGrid, Const(c), None);
      r.Some? && r.value[i] == 0
  {
  }
}
