/**
 * The daily canopy-cover update of the crop solver
 * (aquacrop/solution/canopy_cover.py, after the AquaCrop reference manual's
 * canopy equations).
 *
 * The Python function aliases its result to its argument and reads a few
 * entry values from snapshots taken before any field is written. Here the
 * update is a method on the shared `InitCond` object, proved equal to the
 * specification function `CanopyStep` over canopy snapshots; `d.entry` plays
 * the role of the Python snapshots, and every other read sees the value the
 * update has produced so far, as the aliased object does.
 *
 * The helpers the function calls but whose code is not part of this model
 * (root-zone water, water stress, canopy development, required time, CCx/CDC
 * updates and CCx adjustment) are parameters without any assumed property.
 */
module CanopyCover {
  import opened Numerics
  import opened Entities

  /** The crop parameters the update reads. */
  datatype Crop = Crop(
    calendarType: int,         // 1: calendar days, 2: growing degree days
    emergence: real,
    maturity: real,
    canopyDevEnd: real,
    senescence: real,
    cc0: real,                 // initial canopy cover
    ccx: real,                 // maximum canopy cover
    cgc: real,                 // canopy growth coefficient
    cdc: real)                 // canopy decline coefficient
  {
    /** In season any other calendar type leaves the growth time unbound, and the Python code fails. */
    predicate Valid() { calendarType == 1 || calendarType == 2 }
  }

  datatype Mode = Growth | Decline

  /** Depletion and total available water of the top soil and of the root zone. */
  datatype Depletions = Depletions(drZt: real, drRz: real, tawZt: real, tawRz: real)

  /** Water stress coefficients for expansion, stomata, senescence and pollination. */
  datatype Ksw = Ksw(exp: real, sto: real, sen: real, pol: real, stoLin: real)

  /**
   * The unseen solver helpers. Crop and soil parameters that the Python code
   * passes to them unchanged are closed over by these functions.
   */
  datatype Helpers = Helpers(
    rootZoneWater: DevelopmentState -> Depletions,
    /** (early senescence time, depletion, TAW, et0, beta) */
    waterStress: (real, real, real, real, bool) -> Ksw,
    /** (CC0, CCx, CGC, CDC, dt, mode, CCx max) */
    ccDevelopment: (real, real, real, real, real, Mode, real) -> real,
    /** required time, in the "CGC" mode: (cover, CC0, CCx, CGC, CDC) */
    ccRequiredTime: (real, real, real, real, real) -> real,
    /** (cover, CDC, CCx, dt) to the new (CCx, CDC) */
    updateCcxCdc: (real, real, real, real) -> (real, real),
    /** (cover, CC0, CCx, CGC, CDC, dt, tadd, end of development, CCx max) */
    adjustCcx: (real, real, real, real, real, real, real, real, real) -> real)

  /** Everything fixed for one day's update. */
  datatype Day = Day(
    crop: Crop,
    h: Helpers,
    ops: FloatOps,
    entry: CanopyState,        // the canopy fields on entry
    t: real,                   // time since planting adjusted for delays (tCCadj)
    dt: real,                  // length of the time step (dtCC)
    dr: real,                  // operative depletion
    taw: real,                 // operative total available water
    et0: real,
    ksw: Ksw)                  // stress coefficients with beta

  /**
   * The depletion/TAW pair used for water stress: the root zone's unless the
   * top soil is relatively wetter after rounding.
   */
  function OperativePair(p: Depletions, ops: FloatOps): (real, real)
  {
    if Round4(ops.Quot(p.drRz, p.tawRz)) <= Round4(ops.Quot(p.drZt, p.tawZt)) then (p.drRz, p.tawRz)
    else (p.drZt, p.tawZt)
  }

  /** The root zone is used whenever it is at least as wet, relatively, as the top soil. */
  lemma RootZoneWhenWetter(p: Depletions, ops: FloatOps)
    requires p.tawRz != 0.0 && p.tawZt != 0.0 && p.drRz / p.tawRz <= p.drZt / p.tawZt
    ensures OperativePair(p, ops) == (p.drRz, p.tawRz)
  {
    RoundMonotone(p.drRz / p.tawRz, p.drZt / p.tawZt, 10000.0);
  }

  /** The top soil is used only when its relative depletion is strictly smaller. */
  lemma TopSoilOnlyWhenWetter(p: Depletions, ops: FloatOps)
    requires OperativePair(p, ops) != (p.drRz, p.tawRz)
    ensures OperativePair(p, ops) == (p.drZt, p.tawZt)
    ensures ops.Quot(p.drZt, p.tawZt) < ops.Quot(p.drRz, p.tawRz)
  {
    RoundedLess(ops.Quot(p.drZt, p.tawZt), ops.Quot(p.drRz, p.tawRz), 10000.0);
  }

  /** (dtCC, tCCadj) for the crop's calendar type. */
  function Timing(crop: Crop, dev: DevelopmentState, gdd: real): (r: (real, real))
    requires crop.Valid()
    ensures crop.calendarType == 1 ==> r.0 == 1.0
  {
    if crop.calendarType == 1 then (1.0, (dev.dap - dev.delayedCds) as real)
    else (gdd, dev.gddCum - dev.delayedGdds)
  }

  function Today(crop: Crop, h: Helpers, ops: FloatOps, e: CanopyState, dev: DevelopmentState,
                 gdd: real, et0: real): Day
    requires crop.Valid()
  {
    var (dr, taw) := OperativePair(h.rootZoneWater(dev), ops);
    var (dt, t) := Timing(crop, dev, gdd);
    Day(crop, h, ops, e, t, dt, dr, taw, et0, h.waterStress(e.tEarlySen, dr, taw, et0, true))
  }

  function Pow8(x: real): real { x * x * x * x * x * x * x * x }

  /** Exponential growth of a very small canopy over one step: cc * exp(CGC * dt). */
  function ExponentialGrowth(ops: FloatOps, cc: real, cgc: real, dt: real): real
  {
    cc * ops.exp(cgc * dt)
  }

  /** The growth coefficient reduced by leaf-expansion stress. */
  function StressedCgc(crop: Crop, ksw: Ksw): real
  {
    crop.cgc * ksw.exp
  }

  /** The decline coefficient scaled by the actual against the potential maximum cover. */
  function ScaledCdc(crop: Crop, ops: FloatOps, ccxAct: real): real
  {
    crop.cdc * ops.Quot(ccxAct + 2.29, crop.ccx + 2.29)
  }

  /** The decline coefficient under early senescence, from the senescence stress coefficient. */
  function SenescenceCdc(crop: Crop, sen: real): real
  {
    if Round4(sen) >= 1.0 then 0.0001 else (1.0 - Pow8(sen)) * crop.cdc
  }

  // ---------------------------------------------------------------------
  // Potential canopy (no water stress)

  function Potential(d: Day, s: CanopyState): CanopyState
  {
    var crop, e := d.crop, d.entry;
    if RoundInt(d.t) as real < Round4(crop.emergence) || RoundInt(d.t) as real > Round4(crop.maturity) then
      s.(canopyCoverNs := 0.0)
    else if Round4(d.t) < Round4(crop.canopyDevEnd) then
      var ns :=
        if Round4(e.canopyCoverNs) <= Round4(crop.cc0) then ExponentialGrowth(d.ops, crop.cc0, crop.cgc, d.dt)
        else d.h.ccDevelopment(crop.cc0, 0.98 * crop.ccx, crop.cgc, crop.cdc, d.t - crop.emergence, Growth, crop.ccx);
      s.(canopyCoverNs := ns, ccxActNs := ns)
    else if Round4(d.t) > Round4(crop.canopyDevEnd) then
      var w := s.(ccxWNs := s.ccxActNs);
      if Round4(d.t) < Round4(crop.senescence) then
        w.(canopyCoverNs := e.canopyCoverNs, ccxActNs := e.canopyCoverNs)
      else
        w.(canopyCoverNs := d.h.ccDevelopment(crop.cc0, w.ccxActNs, crop.cgc, crop.cdc,
                                              d.t - crop.senescence, Decline, w.ccxActNs))
    else s
  }

  /**
   * Only the potential-cover fields change, and the potential cover is zero
   * before emergence and after maturity (time rounded to a whole number).
   */
  lemma PotentialEffect(d: Day, s: CanopyState)
    ensures var r := Potential(d, s);
            r == s.(canopyCoverNs := r.canopyCoverNs, ccxActNs := r.ccxActNs, ccxWNs := r.ccxWNs)
            && (RoundInt(d.t) as real < Round4(d.crop.emergence) ==> r.canopyCoverNs == 0.0)
            && (RoundInt(d.t) as real > Round4(d.crop.maturity) ==> r.canopyCoverNs == 0.0)
  {
  }

  // ---------------------------------------------------------------------
  // Actual canopy (with water stress)

  /** Crop death check: applied after each way the actual cover can shrink. */
  function CropDeath(d: Day, s: CanopyState): CanopyState
  {
    if Round3(s.canopyCover) < 0.001 && !d.entry.cropDead then s.(canopyCover := 0.0, cropDead := true)
    else s
  }

  /**
   * The death flag is only ever set, never cleared; setting it zeroes the
   * cover, and it happens exactly when the cover is below 0.001 to three
   * decimals and the crop was alive on entry.
   */
  lemma CropDeathEffect(d: Day, s: CanopyState)
    ensures var r := CropDeath(d, s);
            (r == s || r == s.(canopyCover := 0.0, cropDead := true))
            && (r != s ==> !d.entry.cropDead && Round3(s.canopyCover) < 0.001)
            && (r.cropDead <==> s.cropDead || (!d.entry.cropDead && Round3(s.canopyCover) < 0.001))
  {
  }

  /** Growth of a very small canopy, or of a seedling in its protected phase: no expansion stress. */
  function SeedlingGrowth(d: Day, s: CanopyState): CanopyState
  {
    var crop := d.crop;
    if d.entry.protectedSeed then
      var g := s.(canopyCover := d.h.ccDevelopment(crop.cc0, crop.ccx, crop.cgc, crop.cdc,
                                                   d.t - crop.emergence, Growth, crop.ccx));
      if Round4(g.canopyCover) > Round4(1.25 * g.cc0Adj) then g.(protectedSeed := false) else g
    else
      s.(canopyCover := ExponentialGrowth(d.ops, s.cc0Adj, crop.cgc, d.dt))
  }

  /** Growth under water stress, from a cover above CC0 adjusted and below 0.9799 CCx. */
  function StressedGrowth(d: Day, s: CanopyState): CanopyState
  {
    var crop, e := d.crop, d.entry;
    var cgcAdj := StressedCgc(crop, d.ksw);
    if cgcAdj > 0.0 then
      var ccxAdj := d.h.adjustCcx(e.canopyCover, s.cc0Adj, crop.ccx, cgcAdj, crop.cdc, d.dt, d.t,
                                  crop.canopyDevEnd, crop.ccx);
      if Round4(ccxAdj) < 0.0 then
        s.(canopyCover := e.canopyCover)
      else if Round3(Abs(e.canopyCover - 0.9799 * crop.ccx)) < 0.001 then
        s.(canopyCover := d.h.ccDevelopment(crop.cc0, crop.ccx, crop.cgc, crop.cdc,
                                            d.t - crop.emergence, Growth, crop.ccx))
      else
        var tReq := d.h.ccRequiredTime(e.canopyCover, s.cc0Adj, ccxAdj, cgcAdj, crop.cdc);
        if Round4(tReq) > 0.0 then
          s.(canopyCover := d.h.ccDevelopment(s.cc0Adj, ccxAdj, cgcAdj, crop.cdc, tReq + d.dt,
                                              Growth, crop.ccx))
        else
          s.(canopyCover := e.canopyCover)
    else
      var g := s.(canopyCover := e.canopyCover);
      if Round4(g.canopyCover) > Round4(g.cc0Adj) then g.(cc0Adj := crop.cc0)
      else g.(cc0Adj := g.canopyCover)
  }

  /** Growth between emergence and the end of canopy development. */
  function ActualGrowth(d: Day, s: CanopyState): CanopyState
  {
    var crop, e := d.crop, d.entry;
    if Round4(e.canopyCover) <= Round4(s.cc0Adj)
       || (e.protectedSeed && Round4(e.canopyCover) <= Round4(1.25 * s.cc0Adj)) then
      SeedlingGrowth(d, s)
    else if Round4(e.canopyCover) < Round4(0.9799 * crop.ccx) then
      StressedGrowth(d, s)
    else
      // approaching maximum canopy size
      s.(canopyCover := d.h.ccDevelopment(crop.cc0, crop.ccx, crop.cgc, crop.cdc,
                                          d.t - crop.emergence, Growth, crop.ccx),
         cc0Adj := crop.cc0)
  }

  /**
   * Growth touches only the cover, CC0 adjusted and the protected-seed flag;
   * the flag is never set, and is cleared only in the protected phase when
   * the new cover exceeds 1.25 CC0 adjusted (to four decimals).
   */
  lemma ActualGrowthEffect(d: Day, s: CanopyState)
    requires s.protectedSeed == d.entry.protectedSeed
    ensures var r := ActualGrowth(d, s);
            r == s.(canopyCover := r.canopyCover, cc0Adj := r.cc0Adj, protectedSeed := r.protectedSeed)
            && (r.protectedSeed ==> s.protectedSeed)
            && (r.protectedSeed != s.protectedSeed ==>
                  Round4(r.canopyCover) > Round4(1.25 * s.cc0Adj) && r.cc0Adj == s.cc0Adj)
  {
  }

  function Actual(d: Day, s: CanopyState): CanopyState
  {
    var crop, e := d.crop, d.entry;
    if Round4(d.t) < Round4(crop.emergence) || RoundInt(d.t) as real > Round4(crop.maturity) then
      s.(canopyCover := 0.0, cc0Adj := crop.cc0)
    else if Round4(d.t) < Round4(crop.canopyDevEnd) then
      var g := ActualGrowth(d, s);
      if Round4(g.canopyCover) > Round4(e.ccxAct) then g.(ccxAct := g.canopyCover) else g
    else if d.t > crop.canopyDevEnd then
      var m :=
        if Round4(d.t) < Round4(crop.senescence) then
          // mid-season: no growth
          var p := s.(canopyCover := e.canopyCover);
          if Round4(p.canopyCover) > Round4(e.ccxAct) then p.(ccxAct := p.canopyCover) else p
        else
          // late season: decline
          s.(canopyCover := d.h.ccDevelopment(s.cc0Adj, s.ccxAct, crop.cgc, ScaledCdc(crop, d.ops, s.ccxAct),
                                              d.t - crop.senescence, Decline, s.ccxAct));
      CropDeath(d, m)
    else s
  }

  /**
   * The actual-growth phase touches only the actual cover fields and the two
   * flags; neither flag moves the wrong way, a newly set death flag comes
   * with a zero cover, and before emergence the cover is 0 with CC0 restored.
   */
  lemma ActualEffect(d: Day, s: CanopyState)
    requires s.protectedSeed == d.entry.protectedSeed
    ensures var r := Actual(d, s);
            r == s.(canopyCover := r.canopyCover, cc0Adj := r.cc0Adj, ccxAct := r.ccxAct,
                    protectedSeed := r.protectedSeed, cropDead := r.cropDead)
            && (r.protectedSeed ==> s.protectedSeed)
            && (s.cropDead ==> r.cropDead)
            && (r.cropDead != s.cropDead ==> !d.entry.cropDead && r.canopyCover == 0.0)
            && (Round4(d.t) < Round4(d.crop.emergence) ==> r.canopyCover == 0.0 && r.cc0Adj == d.crop.cc0)
  {
    ActualGrowthEffect(d, s);
    var crop := d.crop;
    if !(Round4(d.t) < Round4(crop.emergence) || RoundInt(d.t) as real > Round4(crop.maturity))
       && !(Round4(d.t) < Round4(crop.canopyDevEnd)) && d.t > crop.canopyDevEnd {
      var m :=
        if Round4(d.t) < Round4(crop.senescence) then
          var p := s.(canopyCover := d.entry.canopyCover);
          if Round4(p.canopyCover) > Round4(d.entry.ccxAct) then p.(ccxAct := p.canopyCover) else p
        else
          s.(canopyCover := d.h.ccDevelopment(s.cc0Adj, s.ccxAct, crop.cgc, ScaledCdc(crop, d.ops, s.ccxAct),
                                              d.t - crop.senescence, Decline, s.ccxAct));
      CropDeathEffect(d, m);
    }
  }

  // ---------------------------------------------------------------------
  // Senescence due to water stress

  /** round(x) < 1 for Python's integer rounding: x is at most one half. */
  predicate SenescenceStress(sen: real) { RoundInt(sen) < 1 }

  lemma SenescenceStressThreshold(sen: real)
    ensures SenescenceStress(sen) <==> sen <= 0.5
  {
    var f := sen.Floor;
    if sen <= 0.5 {
      assert f <= 0;
    } else {
      assert f >= 0;
      if f == 0 { assert sen - f as real > 0.5; }
    }
  }

  /** The canopy cover after a further step of early senescence (CCsen). */
  function SenescenceCover(d: Day, ccxEarlySen: real, cdcAdj: real): real
  {
    if Round3(ccxEarlySen) < 0.001 then 0.0
    else
      RoundSign(ccxEarlySen, 1000.0);
      var rate := d.ops.Quot(cdcAdj * 3.33, ccxEarlySen + 2.29);
      var tReq := d.ops.Quot(d.ops.log(1.0 + (1.0 - d.entry.canopyCover / ccxEarlySen) / 0.05), rate);
      var ccSen := ccxEarlySen * (1.0 - 0.05 * (d.ops.exp((tReq + d.dt) * rate) - 1.0));
      if Round4(ccSen) < 0.0 then 0.0 else ccSen
  }

  /** CCsen is floored at zero (to four decimals), and is zero when the starting cover was. */
  lemma SenescenceCoverNonNegative(d: Day, ccxEarlySen: real, cdcAdj: real)
    ensures Round4(SenescenceCover(d, ccxEarlySen, cdcAdj)) >= 0.0
    ensures Round3(ccxEarlySen) < 0.001 ==> SenescenceCover(d, ccxEarlySen, cdcAdj) == 0.0
  {
    RoundExact(0, 10000.0);
  }

  /** The bookkeeping at the start of a day of early senescence. */
  function SenescenceStart(d: Day, s: CanopyState): CanopyState
  {
    s.(prematSenes := true,
       ccxEarlySen := if d.entry.tEarlySen == 0.0 then d.entry.canopyCover else s.ccxEarlySen,
       tEarlySen := d.entry.tEarlySen + d.dt)
  }

  /** The cover under early senescence: capped before the senescence stage, only lowered after it. */
  function SenescenceDecline(d: Day, s: CanopyState): CanopyState
  {
    var crop, e := d.crop, d.entry;
    var ksw := d.h.waterStress(s.tEarlySen, d.dr, d.taw, d.et0, false);
    var ccSen := SenescenceCover(d, s.ccxEarlySen, SenescenceCdc(crop, ksw.sen));
    if Round4(d.t) < Round4(crop.senescence) then
      var capped := if Round4(ccSen) > Round4(crop.ccx) then crop.ccx else ccSen;
      var cover := if Round4(capped) > Round4(e.canopyCover) then e.canopyCover else capped;
      s.(canopyCover := cover, ccxAct := cover,
         cc0Adj := if Round4(cover) < Round4(crop.cc0) then cover else crop.cc0)
    else if Round4(ccSen) < Round4(s.canopyCover) then s.(canopyCover := ccSen)
    else s
  }

  /** Early senescence under water stress (the stress test fired, the seed is not protected). */
  function EarlySenescence(d: Day, s: CanopyState): CanopyState
  {
    CropDeath(d, SenescenceDecline(d, SenescenceStart(d, s)))
  }

  /**
   * A day of early senescence: the flag is set, the counter advances by the
   * step, the cover at its onset is recorded on the first day; before the
   * senescence stage the cover is capped by CCx and by the entry cover and
   * becomes the new CCx actual, after it the cover is only ever lowered.
   */
  lemma EarlySenescenceEffect(d: Day, s: CanopyState)
    ensures var r := EarlySenescence(d, s);
            r == s.(canopyCover := r.canopyCover, ccxAct := r.ccxAct, cc0Adj := r.cc0Adj, cropDead := r.cropDead,
                    prematSenes := r.prematSenes, tEarlySen := r.tEarlySen, ccxEarlySen := r.ccxEarlySen)
            && r.prematSenes && r.tEarlySen == d.entry.tEarlySen + d.dt
            && r.ccxEarlySen == (if d.entry.tEarlySen == 0.0 then d.entry.canopyCover else s.ccxEarlySen)
            && (s.cropDead ==> r.cropDead)
            && (r.cropDead != s.cropDead ==> !d.entry.cropDead && r.canopyCover == 0.0)
    ensures var r := EarlySenescence(d, s);
            Round4(d.t) < Round4(d.crop.senescence) ==>
              (r.canopyCover == r.ccxAct || r.canopyCover == 0.0)
              && Round4(r.ccxAct) <= Round4(d.crop.ccx) && Round4(r.ccxAct) <= Round4(d.entry.canopyCover)
    ensures var r := EarlySenescence(d, s);
            Round4(d.t) >= Round4(d.crop.senescence) ==>
              r.ccxAct == s.ccxAct && r.cc0Adj == s.cc0Adj
              && (r.canopyCover == 0.0 || Round4(r.canopyCover) <= Round4(s.canopyCover))
  {
    CropDeathEffect(d, SenescenceDecline(d, SenescenceStart(d, s)));
  }

  /** Rewatering in late season: new CCx and CDC, and the cover declines from there. */
  function Rewater(d: Day, s: CanopyState): CanopyState
  {
    var crop := d.crop;
    var updated := d.h.updateCcxCdc(d.entry.canopyCover, crop.cdc, crop.ccx, d.t - d.dt - crop.senescence);
    CropDeath(d, s.(ccxAct := updated.0,
                    canopyCover := d.h.ccDevelopment(s.cc0Adj, updated.0, crop.cgc, updated.1,
                                                     d.t - crop.senescence, Decline, updated.0)))
  }

  /** No senescence stress: the counter is reset, and a late-season crop may be rewatered. */
  function NoStress(d: Day, s: CanopyState): CanopyState
  {
    var s1 := s.(prematSenes := false);
    var s2 :=
      if Round4(d.t) > Round4(d.crop.senescence) && Round4(d.entry.tEarlySen) > 0.0 then Rewater(d, s1)
      else s1;
    s2.(tEarlySen := 0.0)
  }

  /**
   * Without stress the flag and the counter are cleared; only rewatering
   * after the senescence stage, following early senescence, changes the
   * cover, CCx actual or the death flag.
   */
  lemma NoStressEffect(d: Day, s: CanopyState)
    ensures var r := NoStress(d, s);
            r == s.(canopyCover := r.canopyCover, ccxAct := r.ccxAct, cropDead := r.cropDead,
                    prematSenes := r.prematSenes, tEarlySen := r.tEarlySen)
            && !r.prematSenes && r.tEarlySen == 0.0
            && (s.cropDead ==> r.cropDead)
            && (!(Round4(d.t) > Round4(d.crop.senescence) && Round4(d.entry.tEarlySen) > 0.0) ==>
                  r.canopyCover == s.canopyCover && r.ccxAct == s.ccxAct && r.cropDead == s.cropDead)
  {
    var s1 := s.(prematSenes := false);
    var crop := d.crop;
    var updated := d.h.updateCcxCdc(d.entry.canopyCover, crop.cdc, crop.ccx, d.t - d.dt - crop.senescence);
    CropDeathEffect(d, s1.(ccxAct := updated.0,
                           canopyCover := d.h.ccDevelopment(s1.cc0Adj, updated.0, crop.cgc, updated.1,
                                                            d.t - crop.senescence, Decline, updated.0)));
  }

  /** The senescence block, which runs from emergence on while stressed or before senescence. */
  function Senescence(d: Day, s: CanopyState): CanopyState
  {
    var crop, e := d.crop, d.entry;
    if Round4(d.t) >= Round4(crop.emergence)
       && (Round4(d.t) < Round4(crop.senescence) || Round4(e.tEarlySen) > 0.0) then
      var w := if SenescenceStress(d.ksw.sen) && !e.protectedSeed then EarlySenescence(d, s) else NoStress(d, s);
      // withered-canopy maximum
      if Round4(w.canopyCover) > Round4(e.ccxW) then w.(ccxW := w.canopyCover) else w
    else s
  }

  lemma SenescenceEffect(d: Day, s: CanopyState)
    ensures var r := Senescence(d, s);
            r == s.(canopyCover := r.canopyCover, ccxAct := r.ccxAct, cc0Adj := r.cc0Adj, cropDead := r.cropDead,
                    prematSenes := r.prematSenes, tEarlySen := r.tEarlySen, ccxEarlySen := r.ccxEarlySen,
                    ccxW := r.ccxW)
            && (s.cropDead ==> r.cropDead)
            && (Round4(d.t) < Round4(d.crop.emergence) ==> r == s)
  {
    if Round4(d.t) >= Round4(d.crop.emergence)
       && (Round4(d.t) < Round4(d.crop.senescence) || Round4(d.entry.tEarlySen) > 0.0) {
      if SenescenceStress(d.ksw.sen) && !d.entry.protectedSeed {
        EarlySenescenceEffect(d, s);
      } else {
        NoStressEffect(d, s);
      }
    }
  }

  // ---------------------------------------------------------------------
  // Micro-advective adjustment

  /** The potential cover is raised to the actual cover when it is below it. */
  function MicroAdvective(d: Day, s: CanopyState): CanopyState
  {
    if Round4(s.canopyCoverNs) < Round4(s.canopyCover) then
      var n := s.(canopyCoverNs := s.canopyCover);
      if Round4(d.t) < Round4(d.crop.canopyDevEnd) then n.(ccxActNs := n.canopyCoverNs) else n
    else s
  }

  /** Afterwards the potential cover is at least the actual cover (to four decimals). */
  lemma MicroAdvectiveOrder(d: Day, s: CanopyState)
    ensures var r := MicroAdvective(d, s);
            r == s.(canopyCoverNs := r.canopyCoverNs, ccxActNs := r.ccxActNs)
            && Round4(r.canopyCoverNs) >= Round4(r.canopyCover)
            && (Round4(s.canopyCoverNs) >= Round4(s.canopyCover) ==> r == s)
  {
  }

  /** Canopy cover adjusted for micro-advective effects. */
  function Adjusted(x: real): real
  {
    1.72 * x - x * x + 0.3 * (x * x * x)
  }

  /** The adjustment is strictly increasing, so it keeps the order of covers. */
  lemma AdjustedIncreasing(x: real, y: real)
    requires x < y
    ensures Adjusted(x) < Adjusted(y)
  {
    var u := x + y;
    var q := 1.72 - u + 0.3 * (x * x + x * y + y * y);
    assert Adjusted(y) - Adjusted(x) == (y - x) * q;
    assert x * x + x * y + y * y >= 0.75 * (u * u) by {
      assert x * x + x * y + y * y - 0.75 * (u * u) == 0.25 * ((x - y) * (x - y));
    }
    assert 0.225 * (u * u) - u + 1.72 > 0.0 by {
      var v := u - 20.0 / 9.0;
      assert 0.225 * (u * u) - u + 1.72 == 0.225 * (v * v) + 1.72 - 10.0 / 9.0;
    }
    assert q > 0.0;
  }

  /** Outside the growing season every cover and maximum is zero. */
  function Reset(s: CanopyState): CanopyState
  {
    s.(canopyCover := 0.0, canopyCoverAdj := 0.0, canopyCoverNs := 0.0, canopyCoverAdjNs := 0.0,
       ccxW := 0.0, ccxAct := 0.0, ccxWNs := 0.0, ccxActNs := 0.0)
  }

  // ---------------------------------------------------------------------
  // The whole daily update

  /** The in-season update: the four phases, then the adjusted covers. */
  function InSeason(d: Day, s: CanopyState): CanopyState
  {
    var m := MicroAdvective(d, Senescence(d, Actual(d, Potential(d, s))));
    m.(canopyCoverAdj := Adjusted(m.canopyCover), canopyCoverAdjNs := Adjusted(m.canopyCoverNs))
  }

  function CanopyStep(crop: Crop, h: Helpers, ops: FloatOps, e: CanopyState, dev: DevelopmentState,
                      gdd: real, et0: real, growingSeason: bool): CanopyState
    requires growingSeason ==> crop.Valid()
  {
    var s := e.(ccPrev := e.canopyCover);
    if !growingSeason then Reset(s)
    else InSeason(Today(crop, h, ops, e, dev, gdd, et0), s)
  }

  /**
   * Facts that hold after every daily update: cc_prev holds the entry cover,
   * the death flag never clears, the protected-seed flag never sets, the
   * potential cover is at least the actual cover (to four decimals) and both
   * adjusted covers are the cubic adjustment of the final covers.
   */
  lemma StepInvariants(crop: Crop, h: Helpers, ops: FloatOps, e: CanopyState, dev: DevelopmentState,
                       gdd: real, et0: real, growingSeason: bool)
    requires growingSeason ==> crop.Valid()
    ensures var r := CanopyStep(crop, h, ops, e, dev, gdd, et0, growingSeason);
            r.ccPrev == e.canopyCover
            && (e.cropDead ==> r.cropDead)
            && (r.protectedSeed ==> e.protectedSeed)
            && Round4(r.canopyCoverNs) >= Round4(r.canopyCover)
            && r.canopyCoverAdj == Adjusted(r.canopyCover) && r.canopyCoverAdjNs == Adjusted(r.canopyCoverNs)
  {
    var s := e.(ccPrev := e.canopyCover);
    if growingSeason {
      var d := Today(crop, h, ops, e, dev, gdd, et0);
      PotentialEffect(d, s);
      var p := Potential(d, s);
      ActualEffect(d, p);
      var a := Actual(d, p);
      SenescenceEffect(d, a);
      MicroAdvectiveOrder(d, Senescence(d, a));
    } else {
      RoundExact(0, 10000.0);
    }
  }

  /** Outside the growing season exactly the eight cover fields become 0 and nothing else runs. */
  lemma OutOfSeasonReset(crop: Crop, h: Helpers, ops: FloatOps, e: CanopyState, dev: DevelopmentState,
                         gdd: real, et0: real)
    ensures CanopyStep(crop, h, ops, e, dev, gdd, et0, false)
            == e.(ccPrev := e.canopyCover, canopyCover := 0.0, canopyCoverAdj := 0.0, canopyCoverNs := 0.0,
                  canopyCoverAdjNs := 0.0, ccxW := 0.0, ccxAct := 0.0, ccxWNs := 0.0, ccxActNs := 0.0)
  {
  }

  /**
   * In season but before emergence the cover is 0 and CC0 adjusted is CC0;
   * the senescence block does not run, so its fields keep their entry values.
   */
  lemma NoCanopyBeforeEmergence(crop: Crop, h: Helpers, ops: FloatOps, e: CanopyState, dev: DevelopmentState,
                                gdd: real, et0: real)
    requires crop.Valid()
    requires Round4(Today(crop, h, ops, e, dev, gdd, et0).t) < Round4(crop.emergence)
    ensures var r := CanopyStep(crop, h, ops, e, dev, gdd, et0, true);
            r.canopyCover == 0.0 && r.cc0Adj == crop.cc0 && r.cropDead == e.cropDead
            && r.prematSenes == e.prematSenes && r.tEarlySen == e.tEarlySen
            && r.ccxEarlySen == e.ccxEarlySen && r.ccxW == e.ccxW
  {
    var d := Today(crop, h, ops, e, dev, gdd, et0);
    var s := e.(ccPrev := e.canopyCover);
    PotentialEffect(d, s);
    ActualEffect(d, Potential(d, s));
    SenescenceEffect(d, Actual(d, Potential(d, s)));
    MicroAdvectiveOrder(d, Senescence(d, Actual(d, Potential(d, s))));
  }

  /** The state the senescence block starts from. */
  function BeforeSenescence(crop: Crop, h: Helpers, ops: FloatOps, e: CanopyState, dev: DevelopmentState,
                            gdd: real, et0: real): CanopyState
    requires crop.Valid()
  {
    var d := Today(crop, h, ops, e, dev, gdd, et0);
    Actual(d, Potential(d, e.(ccPrev := e.canopyCover)))
  }

  /**
   * A day of early senescence (from emergence, before the senescence stage or
   * while already senescing, stress coefficient at most 0.5, seed not
   * protected): the flag is set, the counter advances by the step and the
   * onset cover is recorded on the first day.
   */
  lemma EarlySenescenceBookkeeping(crop: Crop, h: Helpers, ops: FloatOps, e: CanopyState, dev: DevelopmentState,
                                   gdd: real, et0: real)
    requires crop.Valid()
    requires var d := Today(crop, h, ops, e, dev, gdd, et0);
             Round4(d.t) >= Round4(crop.emergence)
             && (Round4(d.t) < Round4(crop.senescence) || Round4(e.tEarlySen) > 0.0)
             && d.ksw.sen <= 0.5 && !e.protectedSeed
    ensures var d := Today(crop, h, ops, e, dev, gdd, et0);
            var r := CanopyStep(crop, h, ops, e, dev, gdd, et0, true);
            r.prematSenes && r.tEarlySen == e.tEarlySen + d.dt
            && (e.tEarlySen == 0.0 ==> r.ccxEarlySen == e.canopyCover)
            && (e.tEarlySen != 0.0 ==> r.ccxEarlySen == e.ccxEarlySen)
  {
    var d := Today(crop, h, ops, e, dev, gdd, et0);
    var s := e.(ccPrev := e.canopyCover);
    SenescenceStressThreshold(d.ksw.sen);
    PotentialEffect(d, s);
    ActualEffect(d, Potential(d, s));
    var a := BeforeSenescence(crop, h, ops, e, dev, gdd, et0);
    EarlySenescenceEffect(d, a);
    MicroAdvectiveOrder(d, Senescence(d, a));
  }

  /**
   * Under early senescence before the senescence stage, the final cover is
   * the new CCx actual (or 0 if the crop just died), capped by CCx and by the
   * entry cover; after the stage the cover can only go down.
   */
  lemma EarlySenescenceCaps(crop: Crop, h: Helpers, ops: FloatOps, e: CanopyState, dev: DevelopmentState,
                            gdd: real, et0: real)
    requires crop.Valid()
    requires var d := Today(crop, h, ops, e, dev, gdd, et0);
             Round4(d.t) >= Round4(crop.emergence)
             && (Round4(d.t) < Round4(crop.senescence) || Round4(e.tEarlySen) > 0.0)
             && d.ksw.sen <= 0.5 && !e.protectedSeed
    ensures var d := Today(crop, h, ops, e, dev, gdd, et0);
            var r := CanopyStep(crop, h, ops, e, dev, gdd, et0, true);
            Round4(d.t) < Round4(crop.senescence) ==>
              (r.canopyCover == r.ccxAct || r.canopyCover == 0.0)
              && Round4(r.ccxAct) <= Round4(crop.ccx) && Round4(r.ccxAct) <= Round4(e.canopyCover)
    ensures var d := Today(crop, h, ops, e, dev, gdd, et0);
            var a := BeforeSenescence(crop, h, ops, e, dev, gdd, et0);
            var r := CanopyStep(crop, h, ops, e, dev, gdd, et0, true);
            Round4(d.t) >= Round4(crop.senescence) ==>
              r.canopyCover == 0.0 || Round4(r.canopyCover) <= Round4(a.canopyCover)
  {
    var d := Today(crop, h, ops, e, dev, gdd, et0);
    SenescenceStressThreshold(d.ksw.sen);
    var a := BeforeSenescence(crop, h, ops, e, dev, gdd, et0);
    EarlySenescenceEffect(d, a);
    MicroAdvectiveOrder(d, Senescence(d, a));
  }

  /** Without senescence stress (in the same window) the flag and the counter are cleared. */
  lemma NoStressBookkeeping(crop: Crop, h: Helpers, ops: FloatOps, e: CanopyState, dev: DevelopmentState,
                            gdd: real, et0: real)
    requires crop.Valid()
    requires var d := Today(crop, h, ops, e, dev, gdd, et0);
             Round4(d.t) >= Round4(crop.emergence)
             && (Round4(d.t) < Round4(crop.senescence) || Round4(e.tEarlySen) > 0.0)
             && (d.ksw.sen > 0.5 || e.protectedSeed)
    ensures var r := CanopyStep(crop, h, ops, e, dev, gdd, et0, true);
            !r.prematSenes && r.tEarlySen == 0.0
  {
    var d := Today(crop, h, ops, e, dev, gdd, et0);
    SenescenceStressThreshold(d.ksw.sen);
    var a := BeforeSenescence(crop, h, ops, e, dev, gdd, et0);
    ActualEffect(d, Potential(d, e.(ccPrev := e.canopyCover)));
    NoStressEffect(d, a);
    MicroAdvectiveOrder(d, Senescence(d, a));
  }

  // ---------------------------------------------------------------------
  // The update in place

  /**
   * The daily canopy update of the conditions object `c`, in place. Each
   * phase below writes the fields of `c` in the order the Python function
   * does and is proved against the phase function of the same name.
   */
  method UpdateCanopyCover(crop: Crop, h: Helpers, ops: FloatOps, c: InitCond, gdd: real, et0: real,
                           growingSeason: bool)
    requires growingSeason ==> crop.Valid()
    modifies c
    ensures c.Canopy() == CanopyStep(crop, h, ops, old(c.Canopy()), old(c.Development()), gdd, et0, growingSeason)
    ensures unchanged(c`th, c`thFcAdj, c`zGw, c`zRoot, c`dap, c`delayedCds, c`gddCum, c`delayedGdds)
  {
    if growingSeason {
      var d := DayOf(crop, h, ops, c, gdd, et0);
      c.ccPrev := c.canopyCover;
      assert c.Canopy() == d.entry.(ccPrev := d.entry.canopyCover);
      InSeasonStep(d, c);
    } else {
      c.ccPrev := c.canopyCover;
      ResetStep(c);
    }
  }

  /** No canopy outside the growing season. */
  method ResetStep(c: InitCond)
    modifies c
    ensures c.Canopy() == Reset(old(c.Canopy()))
    ensures unchanged(c`th, c`thFcAdj, c`zGw, c`zRoot, c`dap, c`delayedCds, c`gddCum, c`delayedGdds)
  {
    c.canopyCover := 0.0;
    c.canopyCoverAdj := 0.0;
    c.canopyCoverNs := 0.0;
    c.canopyCoverAdjNs := 0.0;
    c.ccxW := 0.0;
    c.ccxAct := 0.0;
    c.ccxWNs := 0.0;
    c.ccxActNs := 0.0;
  }

  /** The day's inputs, read from the conditions object before anything is written. */
  method DayOf(crop: Crop, h: Helpers, ops: FloatOps, c: InitCond, gdd: real, et0: real) returns (d: Day)
    requires crop.Valid()
    ensures d == Today(crop, h, ops, c.Canopy(), c.Development(), gdd, et0)
  {
    var p := h.rootZoneWater(c.Development());
    var dr, taw;
    if Round4(ops.Quot(p.drRz, p.tawRz)) <= Round4(ops.Quot(p.drZt, p.tawZt)) {
      dr, taw := p.drRz, p.tawRz;
    } else {
      dr, taw := p.drZt, p.tawZt;
    }
    var ksw := h.waterStress(c.tEarlySen, dr, taw, et0, true);
    var dt, t;
    if crop.calendarType == 1 {
      dt, t := 1.0, (c.dap - c.delayedCds) as real;
    } else {
      dt, t := gdd, c.gddCum - c.delayedGdds;
    }
    d := Day(crop, h, ops, c.Canopy(), t, dt, dr, taw, et0, ksw);
  }

  method InSeasonStep(d: Day, c: InitCond)
    requires c.protectedSeed == d.entry.protectedSeed
    modifies c
    ensures c.Canopy() == InSeason(d, old(c.Canopy()))
    ensures unchanged(c`th, c`thFcAdj, c`zGw, c`zRoot, c`dap, c`delayedCds, c`gddCum, c`delayedGdds)
  {
    ghost var s0 := c.Canopy();
    PotentialStep(d, c);
    ghost var s1 := c.Canopy();
    ActualStep(d, c);
    ghost var s2 := c.Canopy();
    SenescenceStep(d, c);
    ghost var s3 := c.Canopy();
    MicroAdvectiveStep(d, c);
    assert c.Canopy() == MicroAdvective(d, Senescence(d, Actual(d, Potential(d, s0))));
    c.canopyCoverAdj := Adjusted(c.canopyCover);
    c.canopyCoverAdjNs := Adjusted(c.canopyCoverNs);
  }

  method PotentialStep(d: Day, c: InitCond)
    modifies c
    ensures c.Canopy() == Potential(d, old(c.Canopy()))
    ensures c.protectedSeed == old(c.protectedSeed)
    ensures unchanged(c`th, c`thFcAdj, c`zGw, c`zRoot, c`dap, c`delayedCds, c`gddCum, c`delayedGdds)
  {
    var crop, e := d.crop, d.entry;
    if RoundInt(d.t) as real < Round4(crop.emergence) || RoundInt(d.t) as real > Round4(crop.maturity) {
      c.canopyCoverNs := 0.0;
    } else if Round4(d.t) < Round4(crop.canopyDevEnd) {
      if Round4(e.canopyCoverNs) <= Round4(crop.cc0) {
        c.canopyCoverNs := ExponentialGrowth(d.ops, crop.cc0, crop.cgc, d.dt);
      } else {
        c.canopyCoverNs := d.h.ccDevelopment(crop.cc0, 0.98 * crop.ccx, crop.cgc, crop.cdc,
                                             d.t - crop.emergence, Growth, crop.ccx);
      }
      c.ccxActNs := c.canopyCoverNs;
    } else if Round4(d.t) > Round4(crop.canopyDevEnd) {
      c.ccxWNs := c.ccxActNs;
      if Round4(d.t) < Round4(crop.senescence) {
        c.canopyCoverNs := e.canopyCoverNs;
        c.ccxActNs := c.canopyCoverNs;
      } else {
        c.canopyCoverNs := d.h.ccDevelopment(crop.cc0, c.ccxActNs, crop.cgc, crop.cdc,
                                             d.t - crop.senescence, Decline, c.ccxActNs);
      }
    }
  }

  method CropDeathStep(d: Day, c: InitCond)
    modifies c
    ensures c.Canopy() == CropDeath(d, old(c.Canopy()))
    ensures unchanged(c`th, c`thFcAdj, c`zGw, c`zRoot, c`dap, c`delayedCds, c`gddCum, c`delayedGdds)
  {
    if Round3(c.canopyCover) < 0.001 && !d.entry.cropDead {
      c.canopyCover := 0.0;
      c.cropDead := true;
    }
  }

  method SeedlingGrowthStep(d: Day, c: InitCond)
    modifies c
    ensures c.Canopy() == SeedlingGrowth(d, old(c.Canopy()))
    ensures unchanged(c`th, c`thFcAdj, c`zGw, c`zRoot, c`dap, c`delayedCds, c`gddCum, c`delayedGdds)
  {
    var crop := d.crop;
    if d.entry.protectedSeed {
      c.canopyCover := d.h.ccDevelopment(crop.cc0, crop.ccx, crop.cgc, crop.cdc,
                                         d.t - crop.emergence, Growth, crop.ccx);
      if Round4(c.canopyCover) > Round4(1.25 * c.cc0Adj) {
        c.protectedSeed := false;
      }
    } else {
      c.canopyCover := ExponentialGrowth(d.ops, c.cc0Adj, crop.cgc, d.dt);
    }
  }

  method StressedGrowthStep(d: Day, c: InitCond)
    requires Round4(d.entry.canopyCover) > Round4(c.cc0Adj)
    modifies c
    ensures c.Canopy() == StressedGrowth(d, old(c.Canopy()))
    ensures unchanged(c`th, c`thFcAdj, c`zGw, c`zRoot, c`dap, c`delayedCds, c`gddCum, c`delayedGdds)
  {
    var crop, e := d.crop, d.entry;
    var cgcAdj := StressedCgc(crop, d.ksw);
    if cgcAdj > 0.0 {
      var ccxAdj := d.h.adjustCcx(e.canopyCover, c.cc0Adj, crop.ccx, cgcAdj, crop.cdc, d.dt, d.t,
                                  crop.canopyDevEnd, crop.ccx);
      if Round4(ccxAdj) < 0.0 {
        c.canopyCover := e.canopyCover;
      } else if Round3(Abs(e.canopyCover - 0.9799 * crop.ccx)) < 0.001 {
        c.canopyCover := d.h.ccDevelopment(crop.cc0, crop.ccx, crop.cgc, crop.cdc,
                                           d.t - crop.emergence, Growth, crop.ccx);
      } else {
        var tReq := d.h.ccRequiredTime(e.canopyCover, c.cc0Adj, ccxAdj, cgcAdj, crop.cdc);
        if Round4(tReq) > 0.0 {
          c.canopyCover := d.h.ccDevelopment(c.cc0Adj, ccxAdj, cgcAdj, crop.cdc, tReq + d.dt,
                                             Growth, crop.ccx);
        } else {
          c.canopyCover := e.canopyCover;
        }
      }
    } else {
      c.canopyCover := e.canopyCover;
      // the caller's test already found the cover above cc0Adj, so only
      // the first of the two cc0Adj updates can happen
      assert Round4(c.canopyCover) > Round4(c.cc0Adj);
      c.cc0Adj := crop.cc0;
    }
  }

  method ActualGrowthStep(d: Day, c: InitCond)
    modifies c
    ensures c.Canopy() == ActualGrowth(d, old(c.Canopy()))
    ensures unchanged(c`th, c`thFcAdj, c`zGw, c`zRoot, c`dap, c`delayedCds, c`gddCum, c`delayedGdds)
  {
    var crop, e := d.crop, d.entry;
    if Round4(e.canopyCover) <= Round4(c.cc0Adj)
       || (e.protectedSeed && Round4(e.canopyCover) <= Round4(1.25 * c.cc0Adj)) {
      SeedlingGrowthStep(d, c);
    } else if Round4(e.canopyCover) < Round4(0.9799 * crop.ccx) {
      StressedGrowthStep(d, c);
    } else {
      c.canopyCover := d.h.ccDevelopment(crop.cc0, crop.ccx, crop.cgc, crop.cdc,
                                         d.t - crop.emergence, Growth, crop.ccx);
      c.cc0Adj := crop.cc0;
    }
  }

  method ActualStep(d: Day, c: InitCond)
    requires c.protectedSeed == d.entry.protectedSeed
    modifies c
    ensures c.Canopy() == Actual(d, old(c.Canopy()))
    ensures unchanged(c`th, c`thFcAdj, c`zGw, c`zRoot, c`dap, c`delayedCds, c`gddCum, c`delayedGdds)
  {
    var crop, e := d.crop, d.entry;
    if Round4(d.t) < Round4(crop.emergence) || RoundInt(d.t) as real > Round4(crop.maturity) {
      c.canopyCover := 0.0;
      c.cc0Adj := crop.cc0;
    } else if Round4(d.t) < Round4(crop.canopyDevEnd) {
      ActualGrowthStep(d, c);
      if Round4(c.canopyCover) > Round4(e.ccxAct) {
        c.ccxAct := c.canopyCover;
      }
    } else if d.t > crop.canopyDevEnd {
      if Round4(d.t) < Round4(crop.senescence) {
        c.canopyCover := e.canopyCover;
        if Round4(c.canopyCover) > Round4(e.ccxAct) {
          c.ccxAct := c.canopyCover;
        }
      } else {
        c.canopyCover := d.h.ccDevelopment(c.cc0Adj, c.ccxAct, crop.cgc, ScaledCdc(crop, d.ops, c.ccxAct),
                                           d.t - crop.senescence, Decline, c.ccxAct);
      }
      CropDeathStep(d, c);
    }
  }

  method EarlySenescenceStep(d: Day, c: InitCond)
    modifies c
    ensures c.Canopy() == EarlySenescence(d, old(c.Canopy()))
    ensures unchanged(c`th, c`thFcAdj, c`zGw, c`zRoot, c`dap, c`delayedCds, c`gddCum, c`delayedGdds)
  {
    var crop, e := d.crop, d.entry;
    c.prematSenes := true;
    if e.tEarlySen == 0.0 {
      c.ccxEarlySen := e.canopyCover;
    }
    c.tEarlySen := e.tEarlySen + d.dt;
    assert c.Canopy() == SenescenceStart(d, old(c.Canopy()));
    SenescenceDeclineStep(d, c);
    CropDeathStep(d, c);
  }

  method SenescenceDeclineStep(d: Day, c: InitCond)
    modifies c
    ensures c.Canopy() == SenescenceDecline(d, old(c.Canopy()))
    ensures unchanged(c`th, c`thFcAdj, c`zGw, c`zRoot, c`dap, c`delayedCds, c`gddCum, c`delayedGdds)
  {
    var crop, e := d.crop, d.entry;
    var ksw := d.h.waterStress(c.tEarlySen, d.dr, d.taw, d.et0, false);
    var ccSen := SenescenceCover(d, c.ccxEarlySen, SenescenceCdc(crop, ksw.sen));
    if Round4(d.t) < Round4(crop.senescence) {
      if Round4(ccSen) > Round4(crop.ccx) {
        ccSen := crop.ccx;
      }
      c.canopyCover := ccSen;
      if Round4(c.canopyCover) > Round4(e.canopyCover) {
        c.canopyCover := e.canopyCover;
      }
      c.ccxAct := c.canopyCover;
      if Round4(c.canopyCover) < Round4(crop.cc0) {
        c.cc0Adj := c.canopyCover;
      } else {
        c.cc0Adj := crop.cc0;
      }
    } else if Round4(ccSen) < Round4(c.canopyCover) {
      c.canopyCover := ccSen;
    }
  }

  method RewaterStep(d: Day, c: InitCond)
    modifies c
    ensures c.Canopy() == Rewater(d, old(c.Canopy()))
    ensures unchanged(c`th, c`thFcAdj, c`zGw, c`zRoot, c`dap, c`delayedCds, c`gddCum, c`delayedGdds)
  {
    var crop := d.crop;
    var updated := d.h.updateCcxCdc(d.entry.canopyCover, crop.cdc, crop.ccx, d.t - d.dt - crop.senescence);
    c.ccxAct := updated.0;
    c.canopyCover := d.h.ccDevelopment(c.cc0Adj, updated.0, crop.cgc, updated.1, d.t - crop.senescence,
                                       Decline, updated.0);
    CropDeathStep(d, c);
  }

  method NoStressStep(d: Day, c: InitCond)
    modifies c
    ensures c.Canopy() == NoStress(d, old(c.Canopy()))
    ensures unchanged(c`th, c`thFcAdj, c`zGw, c`zRoot, c`dap, c`delayedCds, c`gddCum, c`delayedGdds)
  {
    c.prematSenes := false;
    if Round4(d.t) > Round4(d.crop.senescence) && Round4(d.entry.tEarlySen) > 0.0 {
      RewaterStep(d, c);
    }
    c.tEarlySen := 0.0;
  }

  method SenescenceStep(d: Day, c: InitCond)
    modifies c
    ensures c.Canopy() == Senescence(d, old(c.Canopy()))
    ensures unchanged(c`th, c`thFcAdj, c`zGw, c`zRoot, c`dap, c`delayedCds, c`gddCum, c`delayedGdds)
  {
    var crop, e := d.crop, d.entry;
    if Round4(d.t) >= Round4(crop.emergence) {
      if Round4(d.t) < Round4(crop.senescence) || Round4(e.tEarlySen) > 0.0 {
        if SenescenceStress(d.ksw.sen) && !e.protectedSeed {
          EarlySenescenceStep(d, c);
        } else {
          NoStressStep(d, c);
        }
        if Round4(c.canopyCover) > Round4(e.ccxW) {
          c.ccxW := c.canopyCover;
        }
      }
    }
  }

  method MicroAdvectiveStep(d: Day, c: InitCond)
    modifies c
    ensures c.Canopy() == MicroAdvective(d, old(c.Canopy()))
    ensures unchanged(c`th, c`thFcAdj, c`zGw, c`zRoot, c`dap, c`delayedCds, c`gddCum, c`delayedGdds)
  {
    if Round4(c.canopyCoverNs) < Round4(c.canopyCover) {
      c.canopyCoverNs := c.canopyCover;
      if Round4(d.t) < Round4(d.crop.canopyDevEnd) {
        c.ccxActNs := c.canopyCoverNs;
      }
    }
  }
}
