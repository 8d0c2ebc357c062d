/**
 * check_groundwater_table: when a water table is present, saturate every
 * compartment from the first one whose midpoint lies at or below the table,
 * and compute the field capacity of each compartment adjusted for the
 * capillary fringe, scanning from the bottom compartment upwards.
 *
 * As in the code, the scan stops at the first compartment (from below) that
 * lies at least Xmax above the table: every shallower compartment gets its
 * plain field capacity, and that compartment itself keeps the zero the
 * result array was created with.
 */
module GroundwaterTable {
  import opened Numerics
  import opened Wrappers
  import opened Entities

  // ---------------------------------------------------------------------
  // Saturation below the table

  /** The first compartment whose midpoint lies at or below the table, searching from `lo`. */
  function FirstAtOrBelowFrom(zMid: seq<real>, zGw: real, lo: nat): Option<nat>
    decreases |zMid| - lo
  {
    if lo >= |zMid| then None
    else if zMid[lo] >= zGw then Some(lo)
    else FirstAtOrBelowFrom(zMid, zGw, lo + 1)
  }

  /** np.argwhere(zMid >= zGw)[0], or None when no midpoint is that deep. */
  function FirstAtOrBelow(zMid: seq<real>, zGw: real): Option<nat>
  {
    FirstAtOrBelowFrom(zMid, zGw, 0)
  }

  lemma {:induction false} FirstAtOrBelowFromSpec(zMid: seq<real>, zGw: real, lo: nat)
    requires forall j :: 0 <= j < lo && j < |zMid| ==> zMid[j] < zGw
    ensures match FirstAtOrBelowFrom(zMid, zGw, lo)
            case None => forall j :: 0 <= j < |zMid| ==> zMid[j] < zGw
            case Some(k) => k < |zMid| && zMid[k] >= zGw && forall j :: 0 <= j < k ==> zMid[j] < zGw
    decreases |zMid| - lo
  {
    if lo < |zMid| && zMid[lo] < zGw {
      FirstAtOrBelowFromSpec(zMid, zGw, lo + 1);
    }
  }

  /** The search finds the least index whose midpoint is at or below the table, and None only when there is none. */
  lemma FirstAtOrBelowSpec(zMid: seq<real>, zGw: real)
    ensures match FirstAtOrBelow(zMid, zGw)
            case None => forall j :: 0 <= j < |zMid| ==> zMid[j] < zGw
            case Some(k) => k < |zMid| && zMid[k] >= zGw && forall j :: 0 <= j < k ==> zMid[j] < zGw
  {
    FirstAtOrBelowFromSpec(zMid, zGw, 0);
  }

  /** Water contents with every compartment from `from` downwards set to saturation. */
  function SaturatedFrom(th: seq<real>, thS: seq<real>, from: int): seq<real>
    requires |thS| == |th|
  {
    seq(|th|, j requires 0 <= j < |th| => if j >= from then thS[j] else th[j])
  }

  /** The water contents after the saturation step. */
  function Saturated(th: seq<real>, prof: SoilProfile, zGw: real): seq<real>
    requires prof.WellFormed() && |th| == prof.Count()
  {
    match FirstAtOrBelow(prof.zMid, zGw)
    case None => th
    case Some(k) => SaturatedFrom(th, prof.thS, k)
  }

  /**
   * Every compartment whose midpoint is at or below the table is saturated,
   * and a compartment with no midpoint at or below the table above or at it
   * keeps its water content.
   */
  lemma SaturatedEffect(th: seq<real>, prof: SoilProfile, zGw: real)
    requires prof.WellFormed() && |th| == prof.Count()
    ensures var r := Saturated(th, prof, zGw);
            |r| == |th|
            && (forall j :: 0 <= j < |th| && prof.zMid[j] >= zGw ==> r[j] == prof.thS[j])
            && (forall j :: 0 <= j < |th| && (forall i :: 0 <= i <= j ==> prof.zMid[i] < zGw) ==> r[j] == th[j])
            && (forall j :: 0 <= j < |th| ==> r[j] == th[j] || r[j] == prof.thS[j])
  {
    FirstAtOrBelowSpec(prof.zMid, zGw);
  }

  /** for ii in range(idx, n): th[ii] = th_s[ii], in place. */
  method Saturate(prof: SoilProfile, th: array<real>, zGw: real)
    requires prof.WellFormed() && th.Length == prof.Count()
    modifies th
    ensures th[..] == Saturated(old(th[..]), prof, zGw)
  {
    var first := FirstAtOrBelow(prof.zMid, zGw);
    if first.None? {
      return;
    }
    var idx := first.value;
    FirstAtOrBelowSpec(prof.zMid, zGw);
    ghost var th0 := th[..];
    var ii := idx;
    while ii < th.Length
      invariant idx <= ii <= th.Length
      invariant forall j :: 0 <= j < th.Length ==> th[j] == (if idx <= j < ii then prof.thS[j] else th0[j])
    {
      th[ii] := prof.thS[ii];
      ii := ii + 1;
    }
    assert th[..] == SaturatedFrom(th0, prof.thS, idx);
  }

  // ---------------------------------------------------------------------
  // Adjusted field capacity

  /** The pF of a field capacity between 0.1 and 0.3: 2 + 0.3 (fc - 0.1) / 0.2. */
  function PF(thFc: real): real
  {
    2.0 + 0.3 * (thFc - 0.1) / 0.2
  }

  /** The height (m) of the capillary fringe above the table that raises field capacity. */
  function Xmax(ops: FloatOps, thFc: real): real
  {
    if Round2(thFc) <= 0.1 then 1.0
    else if Round2(thFc) >= 0.3 then 2.0
    else ops.exp(PF(thFc) * ops.log(10.0)) / 100.0
  }

  /**
   * Xmax is 1 for coarse soils and 2 for fine ones; in between it is
   * 10^pF / 100 with pF strictly between 2 and 2.3, so that it is positive
   * and lies between the two fixed values whenever 10^x is increasing.
   */
  lemma XmaxBounds(ops: FloatOps, thFc: real)
    requires ops.ExpPositive()
    ensures Xmax(ops, thFc) > 0.0
    ensures Round2(thFc) <= 0.1 ==> Xmax(ops, thFc) == 1.0
    ensures 0.1 < Round2(thFc) < 0.3 ==> 2.0 < PF(thFc) < 2.3
    ensures Round2(thFc) >= 0.3 ==> Xmax(ops, thFc) == 2.0
  {
    RoundConstants();
    if 0.1 < Round2(thFc) < 0.3 {
      RoundedLess(0.1, thFc, 100.0);
      RoundedLess(thFc, 0.3, 100.0);
    }
  }

  /** The scan stops at compartment i: no table, or its midpoint is at least Xmax above the table. */
  predicate Cutoff(ops: FloatOps, prof: SoilProfile, zGw: real, i: int)
    requires prof.WellFormed() && 0 <= i < prof.Count()
  {
    Round4(zGw) < 0.0 || Round4(zGw - prof.zMid[i]) >= Round4(Xmax(ops, prof.thFc[i]))
  }

  /** The rise (s - fc) / Xmax^2 * (zMid - (zGw - Xmax))^2 of field capacity inside the fringe. */
  function FringeRise(ops: FloatOps, dV: real, xmax: real, depthInFringe: real): real
  {
    ops.Quot(dV, xmax * xmax) * (depthInFringe * depthInFringe)
  }

  /** The adjusted field capacity of a compartment the scan does not stop at. */
  function AdjustedFc(ops: FloatOps, prof: SoilProfile, zGw: real, i: int): real
    requires prof.WellFormed() && 0 <= i < prof.Count()
  {
    var fc, s, zMid := prof.thFc[i], prof.thS[i], prof.zMid[i];
    if Round4(fc) >= Round4(s) then fc
    else if Round4(zMid) >= Round4(zGw) then s
    else
      var xmax := Xmax(ops, fc);
      fc + FringeRise(ops, s - fc, xmax, zMid - (zGw - xmax))
  }

  /** The compartment the bottom-up scan stops at, looking below index m only; -1 if it never stops. */
  function LastCutoffBelow(ops: FloatOps, prof: SoilProfile, zGw: real, m: int): int
    requires prof.WellFormed() && 0 <= m <= prof.Count()
    decreases m
  {
    if m == 0 then -1
    else if Cutoff(ops, prof, zGw, m - 1) then m - 1
    else LastCutoffBelow(ops, prof, zGw, m - 1)
  }

  /** The compartment the scan stops at, or -1. */
  function StopAt(ops: FloatOps, prof: SoilProfile, zGw: real): int
    requires prof.WellFormed()
  {
    LastCutoffBelow(ops, prof, zGw, prof.Count())
  }

  /** The whole thfcAdj array: plain field capacity above the stop, zero at it, adjusted below it. */
  function FcAdjusted(ops: FloatOps, prof: SoilProfile, zGw: real): seq<real>
    requires prof.WellFormed()
  {
    var k := StopAt(ops, prof, zGw);
    seq(prof.Count(), j requires 0 <= j < prof.Count() =>
      if j < k then prof.thFc[j] else if j == k then 0.0 else AdjustedFc(ops, prof, zGw, j))
  }

  lemma {:induction false} LastCutoffBelowSpec(ops: FloatOps, prof: SoilProfile, zGw: real, m: int)
    requires prof.WellFormed() && 0 <= m <= prof.Count()
    ensures var k := LastCutoffBelow(ops, prof, zGw, m);
            -1 <= k < m && (k >= 0 ==> Cutoff(ops, prof, zGw, k))
            && forall j :: k < j < m ==> !Cutoff(ops, prof, zGw, j)
    decreases m
  {
    if m > 0 && !Cutoff(ops, prof, zGw, m - 1) {
      LastCutoffBelowSpec(ops, prof, zGw, m - 1);
    }
  }

  /**
   * Inside the fringe the adjusted field capacity lies between field
   * capacity and saturation; at or below the table it is saturation.
   */
  lemma AdjustedFcBetween(ops: FloatOps, prof: SoilProfile, zGw: real, i: int)
    requires prof.WellFormed() && 0 <= i < prof.Count()
    requires !Cutoff(ops, prof, zGw, i) && prof.thFc[i] <= prof.thS[i]
    ensures prof.thFc[i] <= AdjustedFc(ops, prof, zGw, i) <= prof.thS[i]
    ensures Round4(prof.thFc[i]) < Round4(prof.thS[i]) && Round4(prof.zMid[i]) >= Round4(zGw)
            ==> AdjustedFc(ops, prof, zGw, i) == prof.thS[i]
  {
    var fc, s, zMid := prof.thFc[i], prof.thS[i], prof.zMid[i];
    if Round4(fc) < Round4(s) && Round4(zMid) < Round4(zGw) {
      var xmax := Xmax(ops, fc);
      RoundedLess(zMid, zGw, 10000.0);
      RoundedLess(zGw - zMid, xmax, 10000.0);
      var d := zMid - (zGw - xmax);
      assert 0.0 < d < xmax;
      FringeFraction(ops, s - fc, xmax, d);
    }
  }

  /** A share t * u of a non-negative amount, with t and u in [0, 1], lies in [0, dV]. */
  lemma ScaledShare(dV: real, t: real, u: real)
    requires dV >= 0.0 && 0.0 <= t <= 1.0 && 0.0 <= u <= 1.0
    ensures 0.0 <= dV * t * u <= dV
  {
    assert 0.0 <= dV * t <= dV;
    assert 0.0 <= dV * t * u <= dV * t;
  }

  /** (dV / X^2) * d^2 lies in [0, dV] when 0 < d < X and dV >= 0. */
  lemma FringeFraction(ops: FloatOps, dV: real, xmax: real, d: real)
    requires dV >= 0.0 && 0.0 < d < xmax
    ensures 0.0 <= FringeRise(ops, dV, xmax, d) <= dV
  {
    assert xmax * xmax > 0.0;
    assert FringeRise(ops, dV, xmax, d) == dV * (d / xmax) * (d / xmax);
    FractionInUnitInterval(d, xmax);
    ScaledShare(dV, d / xmax, d / xmax);
  }

  /**
   * The shape of the result: compartments above the stop have plain field
   * capacity, the stop itself is the first compartment from below at least
   * Xmax above the table and gets 0, and every deeper one is within the
   * fringe and lies between its field capacity and saturation.
   */
  lemma FcAdjustedShape(ops: FloatOps, prof: SoilProfile, zGw: real)
    requires prof.WellFormed()
    ensures var r, k, n := FcAdjusted(ops, prof, zGw), StopAt(ops, prof, zGw), prof.Count();
            |r| == n && -1 <= k < n
            && (k >= 0 ==> Cutoff(ops, prof, zGw, k) && r[k] == 0.0)
            && (forall j :: 0 <= j < k ==> r[j] == prof.thFc[j])
            && (forall j :: k < j < n ==> !Cutoff(ops, prof, zGw, j))
            && (forall j :: k < j < n && prof.thFc[j] <= prof.thS[j] ==> prof.thFc[j] <= r[j] <= prof.thS[j])
  {
    var k, n := StopAt(ops, prof, zGw), prof.Count();
    LastCutoffBelowSpec(ops, prof, zGw, n);
    forall j | k < j < n && prof.thFc[j] <= prof.thS[j]
      ensures prof.thFc[j] <= FcAdjusted(ops, prof, zGw)[j] <= prof.thS[j]
    {
      AdjustedFcBetween(ops, prof, zGw, j);
    }
  }

  /**
   * With a negative table depth the scan stops at the bottom compartment.
   * CheckGroundwaterTable never reaches this case: its precondition keeps
   * the depth non-negative, because with a negative depth the source
   * reads its water-table-in-soil flag unbound (check_groundwater_table.py:68).
   */
  lemma NoTableStopsAtBottom(ops: FloatOps, prof: SoilProfile, zGw: real)
    requires prof.WellFormed() && Round4(zGw) < 0.0
    ensures StopAt(ops, prof, zGw) == prof.Count() - 1
  {
  }

  // ---------------------------------------------------------------------
  // The update in place

  /** thfcAdj part-way through the scan: zero down to compartment c, adjusted below it. */
  function PartialFc(ops: FloatOps, prof: SoilProfile, zGw: real, c: int): seq<real>
    requires prof.WellFormed()
  {
    seq(prof.Count(), j requires 0 <= j < prof.Count() => if j <= c then 0.0 else AdjustedFc(ops, prof, zGw, j))
  }

  lemma PartialFcStep(ops: FloatOps, prof: SoilProfile, zGw: real, c: int)
    requires prof.WellFormed() && 0 <= c < prof.Count()
    ensures PartialFc(ops, prof, zGw, c)[c := AdjustedFc(ops, prof, zGw, c)] == PartialFc(ops, prof, zGw, c - 1)
  {
  }

  /** Stopping at c, with no stop below it, and then filling above c gives the whole result. */
  lemma PartialFcStop(ops: FloatOps, prof: SoilProfile, zGw: real, c: int)
    requires prof.WellFormed() && 0 <= c < prof.Count() && StopAt(ops, prof, zGw) == c
    ensures prof.thFc[..c] + PartialFc(ops, prof, zGw, c)[c..] == FcAdjusted(ops, prof, zGw)
  {
  }

  /** A scan that never stops leaves every compartment adjusted. */
  lemma PartialFcComplete(ops: FloatOps, prof: SoilProfile, zGw: real)
    requires prof.WellFormed() && StopAt(ops, prof, zGw) == -1
    ensures PartialFc(ops, prof, zGw, -1) == FcAdjusted(ops, prof, zGw)
  {
  }

  /** for ii in range(m): thfcAdj[ii] = th_fc[ii]. */
  method FillPlain(thFc: seq<real>, a: array<real>, m: int)
    requires a.Length == |thFc| && 0 <= m <= a.Length
    modifies a
    ensures a[..] == thFc[..m] + old(a[..])[m..]
  {
    var ii := 0;
    while ii < m
      invariant 0 <= ii <= m
      invariant a[..] == thFc[..ii] + old(a[..])[ii..]
    {
      a[ii] := thFc[ii];
      ii := ii + 1;
      assert thFc[..ii] == thFc[..ii - 1] + [thFc[ii - 1]];
    }
  }

  /** One step of the scan at compartment compi: stop and fill above it, or adjust it and move up. */
  method ScanStep(ops: FloatOps, prof: SoilProfile, zGw: real, a: array<real>, compi: int)
    returns (next: int, ghost stopped: bool)
    requires prof.WellFormed() && a.Length == prof.Count() && 0 <= compi < a.Length
    requires StopAt(ops, prof, zGw) == LastCutoffBelow(ops, prof, zGw, compi + 1)
    requires a[..] == PartialFc(ops, prof, zGw, compi)
    modifies a
    ensures next == -1 || next == compi - 1
    ensures stopped ==> next == -1 && a[..] == FcAdjusted(ops, prof, zGw)
    ensures !stopped ==> next == compi - 1 && StopAt(ops, prof, zGw) == LastCutoffBelow(ops, prof, zGw, next + 1)
                         && a[..] == PartialFc(ops, prof, zGw, next)
  {
    if Cutoff(ops, prof, zGw, compi) {
      FillPlain(prof.thFc, a, compi);
      PartialFcStop(ops, prof, zGw, compi);
      next, stopped := -1, true;
    } else {
      a[compi] := AdjustedFc(ops, prof, zGw, compi);
      PartialFcStep(ops, prof, zGw, compi);
      next, stopped := compi - 1, false;
    }
  }

  /** The bottom-up scan filling a fresh, zeroed thfcAdj array. */
  method AdjustFieldCapacity(ops: FloatOps, prof: SoilProfile, zGw: real) returns (a: array<real>)
    requires prof.WellFormed()
    ensures fresh(a) && a[..] == FcAdjusted(ops, prof, zGw)
  {
    var n := prof.Count();
    a := new real[n](_ => 0.0);
    assert a[..] == PartialFc(ops, prof, zGw, n - 1);
    var compi := n - 1;
    ghost var done := false;
    while compi >= 0
      invariant -1 <= compi < n && a.Length == n
      invariant done ==> compi == -1 && a[..] == FcAdjusted(ops, prof, zGw)
      invariant !done ==> StopAt(ops, prof, zGw) == LastCutoffBelow(ops, prof, zGw, compi + 1)
      invariant !done ==> a[..] == PartialFc(ops, prof, zGw, compi)
      decreases compi
    {
      compi, done := ScanStep(ops, prof, zGw, a, compi);
    }
    if !done {
      PartialFcComplete(ops, prof, zGw);
    }
  }

  /**
   * check_groundwater_table. Without a table (presence other than 1) the
   * given adjusted field capacities come back unchanged with None and the
   * water contents are untouched. With one, the water contents are
   * saturated in place and the fresh adjusted field capacities are returned
   * twice. The source leaves the water-table flag unbound, and fails, when
   * the table depth rounds below zero, so that case is excluded.
   */
  method CheckGroundwaterTable(ops: FloatOps, prof: SoilProfile, th: array<real>, thFcAdj: array<real>,
                               waterTablePresence: int, zGw: real)
    returns (fcAdj: array<real>, adjusted: Option<array<real>>)
    requires prof.WellFormed() && th.Length == prof.Count()
    requires waterTablePresence == 1 ==> Round4(zGw) >= 0.0
    modifies th
    ensures waterTablePresence != 1 ==> fcAdj == thFcAdj && adjusted == None && th[..] == old(th[..])
    ensures waterTablePresence == 1 ==>
              fresh(fcAdj) && adjusted == Some(fcAdj) && fcAdj[..] == FcAdjusted(ops, prof, zGw)
              && th[..] == Saturated(old(th[..]), prof, zGw)
  {
    if waterTablePresence != 1 {
      return thFcAdj, None;
    }
    Saturate(prof, th, zGw);
    fcAdj := AdjustFieldCapacity(ops, prof, zGw);
    adjusted := Some(fcAdj);
  }
}
