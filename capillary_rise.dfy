/**
 * Capillary rise from a shallow groundwater table: water is drawn upwards
 * into the soil compartments, from the bottom of the profile, until the
 * available rise is used up, the surface is reached or a compartment is
 * met that already drained downwards today.
 */
module CapillaryRise {
  import opened Numerics
  import opened Entities

  /**
   * The capillary rise (mm/day) the table can deliver to a compartment whose
   * midpoint lies at depth zMid: 0 unless the soil conducts water, the table
   * lies below the surface and less than 4 m below the midpoint; 99 when the
   * midpoint is at or below the table; otherwise exp((log(zGw - zMid) - b) / a)
   * capped at 99, the cap being tested on the value rounded at scale p.
   */
  function RiseLimit(ops: FloatOps, ksat: real, aCr: real, bCr: real, zGw: real, zMid: real, p: real): real
    requires p > 0.0
  {
    if Round4(ksat) > 0.0 && Round4(zGw) > 0.0 && Round4(zGw - zMid) < 4.0 then
      if Round4(zMid) >= Round4(zGw) then 99.0
      else
        var m := ops.exp(ops.Quot(ops.log(zGw - zMid) - bCr, aCr));
        if RoundAt(m, p) > 99.0 then 99.0 else m
    else 0.0
  }

  /** The limit is never negative, and never above 99 once rounded. */
  lemma RiseLimitBounds(ops: FloatOps, ksat: real, aCr: real, bCr: real, zGw: real, zMid: real, p: real)
    requires ops.ExpPositive()
    requires p == 100.0 || p == 10000.0
    ensures 0.0 <= RiseLimit(ops, ksat, aCr, bCr, zGw, zMid, p)
    ensures RoundAt(RiseLimit(ops, ksat, aCr, bCr, zGw, zMid, p), p) <= 99.0
    ensures !(Round4(ksat) > 0.0 && Round4(zGw) > 0.0 && Round4(zGw - zMid) < 4.0) ==>
              RiseLimit(ops, ksat, aCr, bCr, zGw, zMid, p) == 0.0
  {
    RoundExact(0, p);
    if p == 100.0 { RoundExact(9900, p); } else { RoundExact(990000, p); }
  }

  /**
   * The driving force Df for a compartment: 1 - ((th - wp) / (fcAdj - wp))^fshape
   * clamped to [0, 1] on its value rounded to four decimals, or 1 when the
   * compartment is drier than the wilting point or the shape factor is not positive.
   */
  function DrivingForce(ops: FloatOps, th: real, wp: real, fcAdj: real, fshapeCr: real): real
  {
    if Round4(th) >= Round4(wp) && Round4(fshapeCr) > 0.0 then
      var df := 1.0 - ops.pow(ops.Quot(th - wp, fcAdj - wp), fshapeCr);
      if Round4(df) > 1.0 then 1.0
      else if Round4(df) < 0.0 then 0.0
      else df
    else 1.0
  }

  lemma DrivingForceRange(ops: FloatOps, th: real, wp: real, fcAdj: real, fshapeCr: real)
    ensures var df := DrivingForce(ops, th, wp, fcAdj, fshapeCr);
            0.0 <= Round4(df) <= 1.0
            && (Round4(th) < Round4(wp) || Round4(fshapeCr) <= 0.0 ==> df == 1.0)
  {
    RoundConstants();
  }

  /**
   * The relative hydraulic conductivity Krel: 0 at or below the wilting point,
   * linear from there up to thThr = (wp + fc) / 2, and 1 from thThr on
   * (every comparison on values rounded to four decimals).
   */
  function RelativeConductivity(th: real, wp: real, fc: real): real
  {
    var thThr := (wp + fc) / 2.0;
    if Round4(th) < Round4(thThr) then
      if Round4(th) <= Round4(wp) || Round4(thThr) <= Round4(wp) then 0.0
      else
        RoundedLess(wp, thThr, 10000.0);
        (th - wp) / (thThr - wp)
    else 1.0
  }

  lemma RelativeConductivityShape(th: real, wp: real, fc: real)
    ensures var krel, thThr := RelativeConductivity(th, wp, fc), (wp + fc) / 2.0;
            0.0 <= krel <= 1.0
            && (Round4(th) >= Round4(thThr) ==> krel == 1.0)
            && (Round4(th) <= Round4(wp) && Round4(th) < Round4(thThr) ==> krel == 0.0)
            && (Round4(wp) < Round4(th) < Round4(thThr) ==> 0.0 < krel < 1.0)
  {
    var thThr := (wp + fc) / 2.0;
    if Round4(wp) < Round4(th) < Round4(thThr) {
      RoundedLess(wp, th, 10000.0);
      RoundedLess(th, thThr, 10000.0);
      FractionInUnitInterval(th - wp, thThr - wp);
    }
  }

  /** The sum of a sequence of thicknesses. */
  function Sum(s: seq<real>): real
  {
    if |s| == 0 then 0.0 else s[0] + Sum(s[1..])
  }

  /** The depth of the bottom of compartment i, as the loop tracks it from the profile's bottom. */
  function ZBottom(prof: SoilProfile, i: int): real
    requires prof.WellFormed() && -1 <= i < prof.Count()
  {
    prof.dzsum[prof.Count() - 1] - Sum(prof.dz[i + 1..])
  }

  /** The depth of water (mm) in a change dth of water content over a thickness dz (m). */
  function Volume(dth: real, dz: real): real
  {
    dth * 1000.0 * dz
  }

  /** The water (mm) gained by compartments lo.. between `before` and `after`. */
  function GainFrom(after: seq<real>, before: seq<real>, dz: seq<real>, lo: nat): real
    requires |before| == |after| && |dz| == |after|
    decreases |after| - lo
  {
    if lo >= |after| then 0.0
    else Volume(after[lo] - before[lo], dz[lo]) + GainFrom(after, before, dz, lo + 1)
  }

  /** Only the compartments from lo on take part in GainFrom. */
  lemma {:induction false} GainFromFrame(a: seq<real>, b: seq<real>, before: seq<real>, dz: seq<real>, lo: nat)
    requires |before| == |a| == |b| == |dz|
    requires forall k :: lo <= k < |a| ==> a[k] == b[k]
    ensures GainFrom(a, before, dz, lo) == GainFrom(b, before, dz, lo)
    decreases |a| - lo
  {
    if lo < |a| {
      GainFromFrame(a, b, before, dz, lo + 1);
    }
  }

  /** Compartments that did not change add nothing. */
  lemma {:induction false} GainFromUnchanged(after: seq<real>, before: seq<real>, dz: seq<real>, lo: nat, hi: nat)
    requires |before| == |after| == |dz| && lo <= hi <= |after|
    requires forall k :: lo <= k < hi ==> after[k] == before[k]
    ensures GainFrom(after, before, dz, lo) == GainFrom(after, before, dz, hi)
    decreases hi - lo
  {
    if lo < hi {
      GainFromUnchanged(after, before, dz, lo + 1, hi);
    }
  }

  /** The water a compartment can take in one step: Krel * Df * MaxCR spread over its thickness. */
  function RiseInto(krel: real, df: real, maxCr: real, dz: real): real
    requires dz > 0.0
  {
    krel * df * maxCr / (1000.0 * dz)
  }

  lemma RiseIntoNonNegative(krel: real, df: real, maxCr: real, dz: real)
    requires dz > 0.0 && krel >= 0.0 && df >= 0.0 && maxCr >= 0.0
    ensures RiseInto(krel, df, maxCr, dz) >= 0.0
  {
    assert krel * df >= 0.0;
    assert krel * df * maxCr >= 0.0;
  }

  /** What one visited compartment ends with: its water content, the rise it took (mm) and the rise left. */
  datatype Storage = Storage(th: real, rise: real, maxCr: real)

  /**
   * One visited compartment, given its driving force and relative
   * conductivity: water is stored only if there is room below its adjusted
   * field capacity and its midpoint lies above the table; it takes
   * Krel * Df * MaxCR if that fits, which uses up the rise, or else fills up
   * to the adjusted field capacity, leaving Krel * MaxCR minus what it took.
   */
  function Store(df: real, krel: real, th: real, fcAdj: real, dz: real, zBot: real, zGw: real, maxCr: real): Storage
    requires dz > 0.0
  {
    var dth := fcAdj - th;
    if Round4(dth) > 0.0 && Round4(zBot - dz / 2.0) < Round4(zGw) then
      var dthMax := RiseInto(krel, df, maxCr, dz);
      if Round4(dth) >= Round4(dthMax) then Storage(th + dthMax, Volume(dthMax, dz), 0.0)
      else Storage(fcAdj, Volume(dth, dz), krel * maxCr - Volume(dth, dz))
    else Storage(th, 0.0, maxCr)
  }

  /**
   * The rise a compartment takes is exactly the water it gains, and with a
   * non-negative driving force it never loses water.
   */
  lemma StoreConserves(df: real, krel: real, th: real, fcAdj: real, dz: real, zBot: real, zGw: real, maxCr: real)
    requires dz > 0.0 && maxCr > 0.0 && 0.0 <= krel <= 1.0
    ensures var r := Store(df, krel, th, fcAdj, dz, zBot, zGw, maxCr);
            r.rise == Volume(r.th - th, dz) && (df >= 0.0 ==> r.th >= th)
  {
    var dth := fcAdj - th;
    if Round4(dth) > 0.0 && Round4(zBot - dz / 2.0) < Round4(zGw) {
      var dthMax := RiseInto(krel, df, maxCr, dz);
      if Round4(dth) >= Round4(dthMax) {
        assert (th + dthMax) - th == dthMax;
        if df >= 0.0 {
          RiseIntoNonNegative(krel, df, maxCr, dz);
        }
      }
    }
  }

  /**
   * With Krel in [0, 1] the available rise never grows; a compartment
   * changes only when there is room and its midpoint is above the table, and
   * then it is filled to the adjusted field capacity or gains no more than
   * the room (to four decimals).
   */
  lemma StoreBounds(df: real, krel: real, th: real, fcAdj: real, dz: real, zBot: real, zGw: real, maxCr: real)
    requires dz > 0.0 && maxCr > 0.0 && 0.0 <= krel <= 1.0
    ensures var r := Store(df, krel, th, fcAdj, dz, zBot, zGw, maxCr);
            r.maxCr <= maxCr
            && (r.th != th ==>
                  Round4(fcAdj - th) > 0.0 && Round4(zBot - dz / 2.0) < Round4(zGw)
                  && (r.th == fcAdj || Round4(r.th - th) <= Round4(fcAdj - th)))
  {
    var dth := fcAdj - th;
    if Round4(dth) > 0.0 && Round4(zBot - dz / 2.0) < Round4(zGw) {
      var dthMax := RiseInto(krel, df, maxCr, dz);
      if Round4(dth) >= Round4(dthMax) {
        assert Store(df, krel, th, fcAdj, dz, zBot, zGw, maxCr).maxCr == 0.0;
        assert (th + dthMax) - th == dthMax;
      } else {
        RoundSign(dth, 10000.0);
        assert fcAdj - th > 0.0;
        PositiveVolume(fcAdj - th, dz);
        ScaledDown(krel, maxCr);
        assert Store(df, krel, th, fcAdj, dz, zBot, zGw, maxCr).maxCr == krel * maxCr - Volume(fcAdj - th, dz);
      }
    }
  }

  lemma ScaledDown(k: real, m: real)
    requires 0.0 <= k <= 1.0 && m > 0.0
    ensures k * m <= m
  {
    assert m - k * m == (1.0 - k) * m;
  }

  lemma PositiveVolume(d: real, dz: real)
    requires d > 0.0 && dz > 0.0
    ensures Volume(d, dz) > 0.0
  {
  }


  /**
   * What a visited compartment may have become: unchanged, or changed only
   * with room below the adjusted field capacity and its midpoint above the
   * table, and then filled to the adjusted field capacity or raised by no
   * more than the room (to four decimals).
   */
  predicate Admissible(before: real, after: real, fcAdj: real, zBot: real, dz: real, zGw: real)
  {
    after != before ==>
      Round4(fcAdj - before) > 0.0 && Round4(zBot - dz / 2.0) < Round4(zGw)
      && (after == fcAdj || Round4(after - before) <= Round4(fcAdj - before))
  }

  /** MaxCR is replaced by the next compartment's limit only when that is smaller (to four decimals). */
  function Restrict(maxCr: real, limCr: real): (r: real)
    ensures r <= maxCr
  {
    if Round4(maxCr) > Round4(limCr) then
      RoundedLess(limCr, maxCr, 10000.0);
      limCr
    else maxCr
  }

  // ---------------------------------------------------------------------
  // The bottom-up loop, as a function of its state

  /** What the loop reads but never changes. */
  datatype RiseEnv = RiseEnv(ops: FloatOps, prof: SoilProfile, fshapeCr: real, thFcAdj: seq<real>,
                             fluxOut: seq<real>, zGw: real)
  {
    predicate Valid()
    {
      prof.WellFormed() && |thFcAdj| == prof.Count() && |fluxOut| == prof.Count()
      && forall i :: 0 <= i < prof.Count() ==> prof.dz[i] > 0.0
    }
  }

  /** The loop's variables: water contents, current compartment, its bottom depth, MaxCR and WCr. */
  datatype RiseState = RiseState(th: seq<real>, compi: int, zBot: real, maxCr: real, wcr: real)
  {
    predicate Valid(env: RiseEnv)
      requires env.Valid()
    {
      |th| == env.prof.Count() && -1 <= compi < env.prof.Count()
    }
  }

  /** The loop test: rise left, not past the surface, and no drainage out of the compartment today. */
  predicate Continue(env: RiseEnv, s: RiseState)
    requires env.Valid() && s.Valid(env)
  {
    RoundInt(s.maxCr * 1000.0) > 0 && s.compi > -1 && RoundInt(env.fluxOut[s.compi] * 1000.0) == 0
  }

  /** The storage in compartment i given the current water contents. */
  function StoreAt(env: RiseEnv, th: seq<real>, i: int, zBot: real, maxCr: real): Storage
    requires env.Valid() && |th| == env.prof.Count() && 0 <= i < |th|
  {
    var prof := env.prof;
    Store(DrivingForce(env.ops, th[i], prof.thWp[i], env.thFcAdj[i], env.fshapeCr),
          RelativeConductivity(th[i], prof.thWp[i], prof.thFc[i]),
          th[i], env.thFcAdj[i], prof.dz[i], zBot, env.zGw, maxCr)
  }

  /** MaxCR after applying the limit of compartment i, whose bottom lies at zBot. */
  function Limited(env: RiseEnv, i: int, zBot: real, maxCr: real): real
    requires env.Valid() && -1 <= i < env.prof.Count()
  {
    var prof := env.prof;
    if i > -1 then
      Restrict(maxCr, RiseLimit(env.ops, prof.ksat[i], prof.aCr[i], prof.bCr[i], env.zGw,
                                zBot - prof.dz[i] / 2.0, 100.0))
    else maxCr
  }

  /** One pass of the loop body. */
  function Advance(env: RiseEnv, s: RiseState): RiseState
    requires env.Valid() && s.Valid(env) && Continue(env, s)
  {
    var i := s.compi;
    var st := StoreAt(env, s.th, i, s.zBot, s.maxCr);
    var zBot := s.zBot - env.prof.dz[i];
    RiseState(s.th[i := st.th], i - 1, zBot, Limited(env, i - 1, zBot, st.maxCr), s.wcr + st.rise)
  }

  /** The loop run to its end. */
  function Run(env: RiseEnv, s: RiseState): RiseState
    requires env.Valid() && s.Valid(env)
    decreases s.compi + 1
  {
    if Continue(env, s) then Run(env, Advance(env, s)) else s
  }

  /** The state before the loop: the bottom compartment, with its own limit as MaxCR. */
  function Start(env: RiseEnv, th: seq<real>): RiseState
    requires env.Valid() && |th| == env.prof.Count()
  {
    var prof, n := env.prof, env.prof.Count();
    RiseState(th, n - 1, prof.dzsum[n - 1],
              RiseLimit(env.ops, prof.ksat[n - 1], prof.aCr[n - 1], prof.bCr[n - 1], env.zGw, prof.zMid[n - 1], 10000.0),
              0.0)
  }

  /** capillary_rise as a function: the new water contents and CrTot. */
  function Outcome(env: RiseEnv, waterTablePresence: int, th: seq<real>): (seq<real>, real)
    requires env.Valid() && |th| == env.prof.Count()
    requires waterTablePresence == 0 || waterTablePresence == 1
  {
    if waterTablePresence == 0 then (th, 0.0)
    else
      var r := Run(env, Start(env, th));
      (r.th, r.wcr)
  }

  // ---------------------------------------------------------------------
  // Properties of one pass and of the whole loop

  /**
   * One pass changes only the current compartment, adds exactly its gain to
   * WCr, never raises MaxCR, leaves the compartment admissible, and does not
   * lower its water content when its driving force is non-negative.
   */
  lemma AdvanceEffect(env: RiseEnv, s: RiseState)
    requires env.Valid() && s.Valid(env) && Continue(env, s)
    ensures var a, i, prof := Advance(env, s), s.compi, env.prof;
            a.Valid(env) && a.compi == i - 1 && a.zBot == s.zBot - prof.dz[i]
            && (forall k :: 0 <= k < |s.th| && k != i ==> a.th[k] == s.th[k])
            && a.wcr == s.wcr + Volume(a.th[i] - s.th[i], prof.dz[i])
            && a.maxCr <= s.maxCr
            && Admissible(s.th[i], a.th[i], env.thFcAdj[i], s.zBot, prof.dz[i], env.zGw)
            && (DrivingForce(env.ops, s.th[i], prof.thWp[i], env.thFcAdj[i], env.fshapeCr) >= 0.0 ==>
                  a.th[i] >= s.th[i])
  {
    var i, prof := s.compi, env.prof;
    var df := DrivingForce(env.ops, s.th[i], prof.thWp[i], env.thFcAdj[i], env.fshapeCr);
    var krel := RelativeConductivity(s.th[i], prof.thWp[i], prof.thFc[i]);
    RelativeConductivityShape(s.th[i], prof.thWp[i], prof.thFc[i]);
    StoreConserves(df, krel, s.th[i], env.thFcAdj[i], prof.dz[i], s.zBot, env.zGw, s.maxCr);
    StoreBounds(df, krel, s.th[i], env.thFcAdj[i], prof.dz[i], s.zBot, env.zGw, s.maxCr);
  }

  /** The loop only moves upwards, and ends where its test fails. */
  lemma {:induction false} RunStops(env: RiseEnv, s: RiseState)
    requires env.Valid() && s.Valid(env)
    ensures var r := Run(env, s);
            r.Valid(env) && r.compi <= s.compi && !Continue(env, r)
            && (forall k :: r.compi < k <= s.compi ==> RoundInt(env.fluxOut[k] * 1000.0) == 0)
            && r.maxCr <= s.maxCr
    decreases s.compi + 1
  {
    if Continue(env, s) {
      AdvanceEffect(env, s);
      RunStops(env, Advance(env, s));
    }
  }

  /** Compartments the loop does not reach keep their water content. */
  lemma {:induction false} RunFrame(env: RiseEnv, s: RiseState)
    requires env.Valid() && s.Valid(env)
    ensures var r := Run(env, s);
            |r.th| == |s.th|
            && forall k :: 0 <= k < |s.th| && (k <= r.compi || k > s.compi) ==> r.th[k] == s.th[k]
    decreases s.compi + 1
  {
    if Continue(env, s) {
      AdvanceEffect(env, s);
      RunStops(env, Advance(env, s));
      RunFrame(env, Advance(env, s));
    }
  }

  /** Volumes add up along a chain of water contents. */
  lemma VolumeAdditive(a: real, b: real, c: real, dz: real)
    ensures Volume(a - c, dz) == Volume(a - b, dz) + Volume(b - c, dz)
  {
    assert (a - c) * 1000.0 == (a - b) * 1000.0 + (b - c) * 1000.0;
  }

  /** The gain over a base that differs from another only at i is that other gain plus the difference at i. */
  lemma {:induction false} GainRebase(x: seq<real>, y: seq<real>, z: seq<real>, dz: seq<real>, i: int, lo: nat)
    requires |x| == |y| == |z| == |dz| && 0 <= i < |z|
    requires forall k :: 0 <= k < |z| && k != i ==> y[k] == z[k]
    ensures GainFrom(x, z, dz, lo) == GainFrom(x, y, dz, lo) + (if lo <= i then Volume(y[i] - z[i], dz[i]) else 0.0)
    decreases |x| - lo
  {
    if lo < |x| {
      GainRebase(x, y, z, dz, i, lo + 1);
      if lo == i {
        VolumeAdditive(x[i], y[i], z[i], dz[i]);
      }
    }
  }

  /** Conservation: the total rise is exactly the water added to the profile. */
  lemma {:induction false} RunConserves(env: RiseEnv, s: RiseState)
    requires env.Valid() && s.Valid(env)
    ensures var r := Run(env, s);
            |r.th| == |s.th| && r.wcr == s.wcr + GainFrom(r.th, s.th, env.prof.dz, 0)
    decreases s.compi + 1
  {
    var r := Run(env, s);
    RunFrame(env, s);
    if Continue(env, s) {
      var a := Advance(env, s);
      AdvanceEffect(env, s);
      RunConserves(env, a);
      GainRebase(r.th, a.th, s.th, env.prof.dz, s.compi, 0);
    } else {
      GainFromUnchanged(s.th, s.th, env.prof.dz, 0, |s.th|);
    }
  }

  lemma ZBottomStep(prof: SoilProfile, i: int)
    requires prof.WellFormed() && 0 <= i < prof.Count()
    ensures ZBottom(prof, i - 1) == ZBottom(prof, i) - prof.dz[i]
  {
    assert prof.dz[i..][1..] == prof.dz[i + 1..];
  }

  /** Every compartment ends admissible with respect to its content before the loop. */
  lemma {:induction false} RunAdmissible(env: RiseEnv, s: RiseState)
    requires env.Valid() && s.Valid(env) && s.zBot == ZBottom(env.prof, s.compi)
    ensures var r, prof := Run(env, s), env.prof;
            |r.th| == |s.th|
            && forall k :: 0 <= k < |s.th| ==>
                 Admissible(s.th[k], r.th[k], env.thFcAdj[k], ZBottom(prof, k), prof.dz[k], env.zGw)
    decreases s.compi + 1
  {
    if Continue(env, s) {
      var a := Advance(env, s);
      AdvanceEffect(env, s);
      ZBottomStep(env.prof, s.compi);
      RunAdmissible(env, a);
      RunFrame(env, a);
    }
  }

  /** Where every reachable driving force is non-negative, no compartment loses water. */
  lemma {:induction false} RunMonotone(env: RiseEnv, s: RiseState)
    requires env.Valid() && s.Valid(env)
    requires forall k :: 0 <= k <= s.compi ==>
               DrivingForce(env.ops, s.th[k], env.prof.thWp[k], env.thFcAdj[k], env.fshapeCr) >= 0.0
    ensures var r := Run(env, s);
            |r.th| == |s.th| && forall k :: 0 <= k < |s.th| ==> r.th[k] >= s.th[k]
    decreases s.compi + 1
  {
    if Continue(env, s) {
      var a := Advance(env, s);
      AdvanceEffect(env, s);
      RunMonotone(env, a);
      RunFrame(env, a);
    }
  }

  /** Without a water table nothing changes; with one, the outcome is the loop's, conserving water. */
  lemma OutcomeConserves(env: RiseEnv, waterTablePresence: int, th: seq<real>)
    requires env.Valid() && |th| == env.prof.Count()
    requires waterTablePresence == 0 || waterTablePresence == 1
    ensures var (thNew, crTot) := Outcome(env, waterTablePresence, th);
            |thNew| == |th| && crTot == GainFrom(thNew, th, env.prof.dz, 0)
            && (waterTablePresence == 0 ==> thNew == th && crTot == 0.0)
  {
    if waterTablePresence == 1 {
      RunConserves(env, Start(env, th));
    } else {
      GainFromUnchanged(th, th, env.prof.dz, 0, |th|);
    }
  }

  /** The first value of MaxCR lies in [0, 99] (99 on its four-decimal rounding). */
  lemma StartBounds(env: RiseEnv, th: seq<real>)
    requires env.Valid() && |th| == env.prof.Count() && env.ops.ExpPositive()
    ensures var s := Start(env, th);
            s.Valid(env) && 0.0 <= s.maxCr && Round4(s.maxCr) <= 99.0 && s.zBot == ZBottom(env.prof, s.compi)
  {
    var prof, n := env.prof, env.prof.Count();
    RiseLimitBounds(env.ops, prof.ksat[n - 1], prof.aCr[n - 1], prof.bCr[n - 1], env.zGw, prof.zMid[n - 1], 10000.0);
    assert prof.dz[n..] == [];
  }

  // ---------------------------------------------------------------------
  // The update in place

  /** One visited compartment, written into `th` in place. */
  method Visit(env: RiseEnv, th: array<real>, i: int, zBot: real, maxCr: real) returns (rise: real, maxCrLeft: real)
    requires env.Valid() && th.Length == env.prof.Count() && 0 <= i < th.Length
    modifies th
    ensures var st := StoreAt(env, old(th[..]), i, zBot, maxCr);
            th[..] == old(th[..])[i := st.th] && rise == st.rise && maxCrLeft == st.maxCr
  {
    var prof := env.prof;
    var df := DrivingForce(env.ops, th[i], prof.thWp[i], env.thFcAdj[i], env.fshapeCr);
    var krel := RelativeConductivity(th[i], prof.thWp[i], prof.thFc[i]);
    var stored := Store(df, krel, th[i], env.thFcAdj[i], prof.dz[i], zBot, env.zGw, maxCr);
    th[i] := stored.th;
    rise, maxCrLeft := stored.rise, stored.maxCr;
  }

  /** One pass of the loop body, on the array in place. */
  method AdvanceStep(env: RiseEnv, th: array<real>, compi: int, zBot: real, maxCr: real, wcr: real)
    returns (compi': int, zBot': real, maxCr': real, wcr': real)
    requires env.Valid() && th.Length == env.prof.Count() && 0 <= compi < th.Length
    requires Continue(env, RiseState(th[..], compi, zBot, maxCr, wcr))
    modifies th
    ensures RiseState(th[..], compi', zBot', maxCr', wcr')
            == Advance(env, RiseState(old(th[..]), compi, zBot, maxCr, wcr))
  {
    var prof := env.prof;
    var rise, left := Visit(env, th, compi, zBot, maxCr);
    wcr' := wcr + rise;
    zBot' := zBot - prof.dz[compi];
    compi' := compi - 1;
    maxCr' := Limited(env, compi', zBot', left);
  }

  /**
   * capillary_rise: capillary rise from the water table into `c.th`, in
   * place, from the bottom compartment upwards; returns CrTot (mm).
   */
  method CapillaryRise(ops: FloatOps, prof: SoilProfile, fshapeCr: real, c: InitCond, fluxOut: seq<real>,
                       waterTablePresence: int)
    returns (crTot: real)
    requires prof.WellFormed() && c.th.Length == prof.Count()
    requires |c.thFcAdj| == prof.Count() && |fluxOut| == prof.Count()
    requires forall i :: 0 <= i < prof.Count() ==> prof.dz[i] > 0.0
    requires waterTablePresence == 0 || waterTablePresence == 1
    modifies c.th
    ensures (c.th[..], crTot)
            == Outcome(RiseEnv(ops, prof, fshapeCr, c.thFcAdj, fluxOut, c.zGw), waterTablePresence, old(c.th[..]))
  {
    var env := RiseEnv(ops, prof, fshapeCr, c.thFcAdj, fluxOut, c.zGw);
    if waterTablePresence == 0 {
      crTot := 0.0;
      return;
    }
    var start := Start(env, c.th[..]);
    var compi, zBot, maxCr, wcr := start.compi, start.zBot, start.maxCr, 0.0;
    while RoundInt(maxCr * 1000.0) > 0 && compi > -1 && RoundInt(fluxOut[compi] * 1000.0) == 0
      invariant -1 <= compi < c.th.Length
      invariant Run(env, RiseState(c.th[..], compi, zBot, maxCr, wcr)) == Run(env, start)
      decreases compi
    {
      compi, zBot, maxCr, wcr := AdvanceStep(env, c.th, compi, zBot, maxCr, wcr);
    }
    crTot := wcr;
  }
}
