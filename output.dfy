/**
 * The output buffers of a simulation: three zero-filled numeric tables with
 * one row per day of the simulated time span, which the daily step writes in
 * place, and an empty table of end-of-season statistics.
 */
module OutputBuffers {

  /** Columns of the water-flux buffer. */
  const FluxBufferWidth: nat := 17

  /** Columns of the crop-growth buffer. */
  const GrowthBufferWidth: nat := 14

  /** Leading columns of the water-storage buffer: step counter, date, growing season, days after planting. */
  const StorageLeadWidth: nat := 4

  /** The column names of the end-of-season statistics table. */
  const FinalStatsColumns: seq<string> := [
    "Season",
    "crop Type",
    "Harvest Date (YYYY/MM/DD)",
    "Harvest Date (Step)",
    "Yield (tonne/ha)",
    "Seasonal irrigation (mm)"]

  /** A table with named columns and no rows yet. */
  datatype StatsTable = StatsTable(columns: seq<string>, rows: seq<seq<string>>)

  class Output {
    var waterStorage: array2<real>
    var waterFlux: array2<real>
    var cropGrowth: array2<real>
    var finalStats: StatsTable

    /** Every entry of the buffer is zero. */
    predicate Zeroed(a: array2<real>)
      reads a
    {
      forall i, j :: 0 <= i < a.Length0 && 0 <= j < a.Length1 ==> a[i, j] == 0.0
    }

    /**
     * Output(time_span, initial_th), given the length of the time span and
     * the number of compartments: water storage has 4 + compartments
     * columns, water flux 17 and crop growth 14, one row per day, all zero;
     * the statistics table has the six named columns and no rows.
     */
    constructor(timeSpanLength: nat, compartments: nat)
      ensures fresh(waterStorage) && fresh(waterFlux) && fresh(cropGrowth)
      ensures waterStorage.Length0 == timeSpanLength && waterStorage.Length1 == StorageLeadWidth + compartments
      ensures waterFlux.Length0 == timeSpanLength && waterFlux.Length1 == FluxBufferWidth
      ensures cropGrowth.Length0 == timeSpanLength && cropGrowth.Length1 == GrowthBufferWidth
      ensures Zeroed(waterStorage) && Zeroed(waterFlux) && Zeroed(cropGrowth)
      ensures finalStats == StatsTable(FinalStatsColumns, [])
    {
      waterStorage := new real[timeSpanLength, StorageLeadWidth + compartments]((_, _) => 0.0);
      waterFlux := new real[timeSpanLength, FluxBufferWidth]((_, _) => 0.0);
      cropGrowth := new real[timeSpanLength, GrowthBufferWidth]((_, _) => 0.0);
      finalStats := StatsTable(FinalStatsColumns, []);
    }
  }
}
