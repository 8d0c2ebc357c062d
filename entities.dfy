/**
 * The per-day "current conditions" object the solver modules update in place,
 * restricted to the fields the modelled functions read or write, and the
 * soil profile they read.
 */
module Entities {

  /** The canopy fields of the conditions object. */
  datatype CanopyState = CanopyState(
    canopyCover: real,
    canopyCoverNs: real,       // potential cover, without water stress
    canopyCoverAdj: real,      // cover adjusted for micro-advection
    canopyCoverAdjNs: real,
    ccPrev: real,
    ccxAct: real,              // actual maximum cover so far in the season
    ccxActNs: real,
    ccxW: real,                // maximum cover used for withered-canopy effects
    ccxWNs: real,
    cc0Adj: real,              // adjusted initial cover
    protectedSeed: bool,
    cropDead: bool,
    prematSenes: bool,
    tEarlySen: real,           // time spent in early senescence
    ccxEarlySen: real)         // cover when early senescence began

  /** The fields the canopy update reads but never writes. */
  datatype DevelopmentState = DevelopmentState(
    zRoot: real,
    th: seq<real>,
    dap: int,                  // days after planting
    delayedCds: int,
    gddCum: real,
    delayedGdds: real)

  /** Per-compartment soil properties (one entry per compartment, top first). */
  datatype SoilProfile = SoilProfile(
    dz: seq<real>,             // thickness (m)
    dzsum: seq<real>,          // depth of the compartment's bottom (m)
    zMid: seq<real>,           // depth of the compartment's midpoint (m)
    thFc: seq<real>,           // field capacity
    thWp: seq<real>,           // wilting point
    thS: seq<real>,            // saturation
    ksat: seq<real>,           // saturated hydraulic conductivity (mm/day)
    aCr: seq<real>,            // capillary-rise soil parameters
    bCr: seq<real>)
  {
    function Count(): nat { |dz| }

    predicate WellFormed()
    {
      |dz| >= 1 && |dzsum| == |dz| && |zMid| == |dz| && |thFc| == |dz| && |thWp| == |dz|
      && |thS| == |dz| && |ksat| == |dz| && |aCr| == |dz| && |bCr| == |dz|
    }
  }

  /** The conditions object shared, and updated in place, by the daily solver steps. */
  class InitCond {
    var th: array<real>        // water content per compartment
    var thFcAdj: seq<real>     // field capacity adjusted for a shallow water table
    var zGw: real              // groundwater depth
    var zRoot: real
    var dap: int
    var delayedCds: int
    var gddCum: real
    var delayedGdds: real

    var canopyCover: real
    var canopyCoverNs: real
    var canopyCoverAdj: real
    var canopyCoverAdjNs: real
    var ccPrev: real
    var ccxAct: real
    var ccxActNs: real
    var ccxW: real
    var ccxWNs: real
    var cc0Adj: real
    var protectedSeed: bool
    var cropDead: bool
    var prematSenes: bool
    var tEarlySen: real
    var ccxEarlySen: real

    constructor(th: array<real>, thFcAdj: seq<real>, zGw: real, d: DevelopmentState, s: CanopyState)
      ensures this.th == th && this.thFcAdj == thFcAdj && this.zGw == zGw && Canopy() == s
      ensures zRoot == d.zRoot && dap == d.dap && delayedCds == d.delayedCds
      ensures gddCum == d.gddCum && delayedGdds == d.delayedGdds
    {
      this.th := th;
      this.thFcAdj := thFcAdj;
      this.zGw := zGw;
      zRoot := d.zRoot;
      dap := d.dap;
      delayedCds := d.delayedCds;
      gddCum := d.gddCum;
      delayedGdds := d.delayedGdds;
      canopyCover := s.canopyCover;
      canopyCoverNs := s.canopyCoverNs;
      canopyCoverAdj := s.canopyCoverAdj;
      canopyCoverAdjNs := s.canopyCoverAdjNs;
      ccPrev := s.ccPrev;
      ccxAct := s.ccxAct;
      ccxActNs := s.ccxActNs;
      ccxW := s.ccxW;
      ccxWNs := s.ccxWNs;
      cc0Adj := s.cc0Adj;
      protectedSeed := s.protectedSeed;
      cropDead := s.cropDead;
      prematSenes := s.prematSenes;
      tEarlySen := s.tEarlySen;
      ccxEarlySen := s.ccxEarlySen;
    }

    function Canopy(): CanopyState
      reads this
    {
      CanopyState(canopyCover, canopyCoverNs, canopyCoverAdj, canopyCoverAdjNs, ccPrev,
        ccxAct, ccxActNs, ccxW, ccxWNs, cc0Adj, protectedSeed, cropDead, prematSenes,
        tEarlySen, ccxEarlySen)
    }

    function Development(): DevelopmentState
      reads this, th
    {
      DevelopmentState(zRoot, th[..], dap, delayedCds, gddCum, delayedGdds)
    }
  }
}
