/**
 * outputs_when_model_is_finished: once the model or the requested steps are
 * finished, attach column names to the three output buffers; otherwise
 * answer False.
 */
module FinishedOutputs {

  /** A numeric buffer with a fixed number of columns. */
  datatype Matrix = Matrix(cols: nat, cells: seq<seq<real>>)
  {
    predicate Valid()
    {
      forall i :: 0 <= i < |cells| ==> |cells[i]| == cols
    }
  }

  /** A table: column names over the rows of a buffer. */
  datatype Frame = Frame(columns: seq<string>, cells: seq<seq<real>>)

  /** False, or the three named tables in the order flux, storage, growth. */
  datatype Finished = NotFinished | Tables(flux: Frame, water: Frame, growth: Frame)

  const FluxColumns: seq<string> := [
    "time_step_counter", "date", "season_counter", "dap", "Wr", "depletion_root_zone", "z_gw",
    "surface_storage", "IrrDay", "Infl", "Runoff", "DeepPerc", "CR", "GwIn", "Es", "EsPot", "Tr", "TrPot"]

  const StorageLeadColumns: seq<string> := ["time_step_counter", "date", "growing_season", "dap"]

  const GrowthColumns: seq<string> := [
    "time_step_counter", "date", "season_counter", "dap", "gdd", "gdd_cum", "z_root", "canopy_cover",
    "canopy_cover_ns", "biomass", "biomass_ns", "harvest_index", "harvest_index_adj", "yield_",
    "is_stomatal_closed"]

  function Digit(d: int): char
    requires 0 <= d < 10
  {
    "0123456789"[d]
  }

  /** str(n) for a natural number: its decimal digits, without leading zeros. */
  function NatToString(n: nat): string
  {
    if n < 10 then [Digit(n)] else NatToString(n / 10) + [Digit(n % 10)]
  }

  /** "th1", ..., "thN" for the N compartments (none when N is not positive). */
  function CompartmentColumns(n: int): seq<string>
  {
    seq(if n > 0 then n else 0, i requires i >= 0 => "th" + NatToString(i + 1))
  }

  /** The storage columns of a buffer of the given width. */
  function StorageColumns(width: nat): seq<string>
  {
    StorageLeadColumns + CompartmentColumns(width - |StorageLeadColumns|)
  }

  /**
   * outputs_when_model_is_finished. Building a table from a buffer whose
   * width differs from the number of names raises, so equal widths are
   * required whenever the tables are built.
   */
  function OutputsWhenModelIsFinished(modelIsFinished: bool, flux: Matrix, water: Matrix, growth: Matrix,
                                      stepsAreFinished: bool): Finished
    requires flux.Valid() && water.Valid() && growth.Valid()
    requires modelIsFinished || stepsAreFinished ==>
               flux.cols == |FluxColumns| && water.cols >= |StorageLeadColumns| && growth.cols == |GrowthColumns|
  {
    if modelIsFinished || stepsAreFinished then
      Tables(Frame(FluxColumns, flux.cells),
             Frame(StorageColumns(water.cols), water.cells),
             Frame(GrowthColumns, growth.cells))
    else NotFinished
  }

  // ---------------------------------------------------------------------

  /** No two names in the list are equal. */
  predicate Distinct(names: seq<string>)
  {
    forall i, j :: 0 <= i < j < |names| ==> names[i] != names[j]
  }

  lemma {:induction false} NatToStringShape(n: nat)
    ensures |NatToString(n)| >= 1 && (n >= 10 ==> |NatToString(n)| >= 2)
    ensures NatToString(n)[|NatToString(n)| - 1] == Digit(n % 10)
    ensures n >= 1 ==> NatToString(n)[0] != '0'
  {
    if n >= 10 {
      NatToStringShape(n / 10);
    }
  }

  /** Decimal rendering is one-to-one, so different compartments get different names. */
  lemma {:induction false} NatToStringInjective(a: nat, b: nat)
    requires NatToString(a) == NatToString(b)
    ensures a == b
  {
    NatToStringShape(a);
    NatToStringShape(b);
    if a >= 10 && b >= 10 {
      var sa, sb := NatToString(a), NatToString(b);
      assert sa[..|sa| - 1] == NatToString(a / 10);
      assert sb[..|sb| - 1] == NatToString(b / 10);
      NatToStringInjective(a / 10, b / 10);
      assert a % 10 == b % 10 by {
        assert Digit(a % 10) == Digit(b % 10);
      }
    } else if a < 10 && b < 10 {
      assert Digit(a) == Digit(b);
    }
  }

  /**
   * The storage columns: the four leading names, then "th" + str(k - 3) in
   * column k >= 4; one name per buffer column, all different.
   */
  lemma StorageColumnsSpec(width: nat)
    requires width >= |StorageLeadColumns|
    ensures var names := StorageColumns(width);
            |names| == width && names[..4] == StorageLeadColumns
            && (forall k :: 4 <= k < width ==> names[k] == "th" + NatToString(k - 3))
            && Distinct(names)
  {
    var names := StorageColumns(width);
    forall i, j | 0 <= i < j < width ensures names[i] != names[j] {
      if 4 <= i {
        if "th" + NatToString(i - 3) == "th" + NatToString(j - 3) {
          assert NatToString(i - 3) == ("th" + NatToString(i - 3))[2..];
          assert NatToString(j - 3) == ("th" + NatToString(j - 3))[2..];
          NatToStringInjective(i - 3, j - 3);
        }
      } else if 4 <= j {
        assert names[j][1] == 'h';
        assert names[i][1] != 'h';
      }
    }
  }

  /**
   * The gate and the tables: False unless the model or the steps are
   * finished; otherwise the tables come in the order flux, storage, growth,
   * each with one distinct name per column and the buffer's rows unchanged.
   */
  lemma OutputsWhenModelIsFinishedSpec(modelIsFinished: bool, flux: Matrix, water: Matrix, growth: Matrix,
                                       stepsAreFinished: bool)
    requires flux.Valid() && water.Valid() && growth.Valid()
    requires modelIsFinished || stepsAreFinished ==>
               flux.cols == |FluxColumns| && water.cols >= |StorageLeadColumns| && growth.cols == |GrowthColumns|
    ensures var r := OutputsWhenModelIsFinished(modelIsFinished, flux, water, growth, stepsAreFinished);
            (r.NotFinished? <==> !modelIsFinished && !stepsAreFinished)
            && (r.Tables? ==>
                  r.flux.cells == flux.cells && r.water.cells == water.cells && r.growth.cells == growth.cells
                  && |r.flux.columns| == flux.cols && |r.water.columns| == water.cols
                  && |r.growth.columns| == growth.cols
                  && Distinct(r.flux.columns) && Distinct(r.water.columns) && Distinct(r.growth.columns)
                  && r.water.columns[..4] == StorageLeadColumns
                  && forall k :: 4 <= k < water.cols ==> r.water.columns[k] == "th" + NatToString(k - 3))
  {
    if modelIsFinished || stepsAreFinished {
      StorageColumnsSpec(water.cols);
      FixedColumnsDistinct();
    }
  }

  /** The fixed flux and growth names are all different. */
  lemma FixedColumnsDistinct()
    ensures Distinct(FluxColumns) && Distinct(GrowthColumns)
  {
  }
}
