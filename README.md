# AquaCrop core in Dafny

A Dafny model of the core of an AquaCrop-OS based crop-water simulator and
of the calendar helpers of its RIA weather-station client. What the model covers:

- **The model object** (`Core`, from `aquacrop/core.py`):
  - The validating setters for the simulation dates and the weather table.
  - Default collaborators when none are given.
  - `run_model`, which steps a given number of days or runs until the clock reports the simulation finished.
  - The result getters, which raise before a run, answer `False` before the end, or return the tables.
  - The two module-level helpers: the date-format check and the per-day weather lookup.
- **The daily solver steps**, each updating the shared conditions object in place:
  - Canopy-cover growth, senescence and micro-advective adjustment (`CanopyCover`).
  - Capillary rise from a shallow water table (`CapillaryRise`).
  - The water-table check that saturates compartments and adjusts field capacity (`GroundwaterTable`).
- **Input and output preparation**:
  - Clipping, deduplicating, reindexing and forward-filling of the weather table (`WeatherInputs`).
  - The zeroed output buffers (`OutputBuffers`).
  - The naming of those buffers once a run ends (`FinishedOutputs`).
- **The weather-station helpers** (`WeatherStations`):
  - The leap-year test.
  - Adding and removing 29 February.
  - The date of a day of the year.
  - The per-year grouping, leap fill and trailing-year drop of `get_means_from_weather_data`.
  - The precipitation fill and ET0 clip of `transform_data_into_aquacrop_format`.

Each stateful routine is a method on a class or an array, proved equal to a
specification function. The properties the code promises are proved about
those functions as lemmas. `Numerics` models Python's `round` exactly on
reals, round-half-even, at 2, 3 and 4 decimals and to an integer.
`DateTime` models the parts of `datetime` used: the Gregorian calendar,
ordinals, and `strptime` with `%Y/%m/%d` and `%Y-%m-%d`.

## Model

| member | source | states |
|---|---|---|
| CanopyCover.RootZoneWhenWetter | aquacrop/solution/canopy_cover.py:100-103 | the root-zone depletion/TAW pair is used whenever its relative depletion is at most the top soil's |
| CanopyCover.TopSoilOnlyWhenWetter | aquacrop/solution/canopy_cover.py:100-107 | the top-soil pair is used only when its relative depletion is strictly smaller than the root zone's |
| CanopyCover.Timing | aquacrop/solution/canopy_cover.py:128-133 | in calendar days the growth step dtCC is 1 |
| CanopyCover.PotentialEffect | aquacrop/solution/canopy_cover.py:136-175 | the potential phase writes only the potential-cover fields; the potential cover is 0 before emergence and after maturity (time rounded to an integer) |
| CanopyCover.CropDeathEffect | aquacrop/solution/canopy_cover.py:313-316 | the death check either changes nothing or zeroes the cover and sets the flag, exactly when the cover is below 0.001 (3 decimals) and the crop was alive on entry |
| CanopyCover.ActualGrowthEffect | aquacrop/solution/canopy_cover.py:183-282 | growth writes only the cover, CC0 adjusted and the protected-seed flag; the flag is never set, and is cleared only when the cover passes 1.25 CC0 adjusted |
| CanopyCover.ActualEffect | aquacrop/solution/canopy_cover.py:178-316 | the actual phase writes only the actual fields and two flags; neither flag moves the wrong way; a newly set death flag comes with cover 0; before emergence the cover is 0 and CC0 adjusted is CC0 |
| CanopyCover.SenescenceStressThreshold | aquacrop/solution/canopy_cover.py:323 | the integer-rounding test round(Ksw.sen) < 1 holds exactly when Ksw.sen <= 0.5 |
| CanopyCover.SenescenceCoverNonNegative | aquacrop/solution/canopy_cover.py:357-378 | CCsen is never negative at 4 decimals, and is 0 when the cover at the onset of senescence is below 0.001 |
| CanopyCover.EarlySenescenceEffect | aquacrop/solution/canopy_cover.py:326-410 | early senescence sets the flag, advances the counter by dtCC and records the onset cover on the first day; before the senescence stage the cover is the new CCx actual (or 0 on death), capped by CCx and the entry cover; after it, the cover only decreases and CCx actual and CC0 adjusted are kept |
| CanopyCover.NoStressEffect | aquacrop/solution/canopy_cover.py:412-432 | without stress the flag and the counter are cleared; only late-season rewatering after early senescence changes the cover, CCx actual or the death flag |
| CanopyCover.SenescenceEffect | aquacrop/solution/canopy_cover.py:319-436 | the senescence block writes only its fields, never clears the death flag, and does nothing before emergence |
| CanopyCover.MicroAdvectiveOrder | aquacrop/solution/canopy_cover.py:440-443 | afterwards the potential cover is at least the actual cover at 4 decimals; a state already in that order is unchanged |
| CanopyCover.AdjustedIncreasing | aquacrop/solution/canopy_cover.py:446-450 | the cubic micro-advective adjustment is strictly increasing, so it keeps the order of covers |
| CanopyCover.CanopyStep | aquacrop/solution/canopy_cover.py:34-463 | the specification of the daily update: cc_prev takes the entry cover, then out of season the reset, in season the four phases and the adjusted covers; its properties are StepInvariants and OutOfSeasonReset |
| CanopyCover.StepInvariants | aquacrop/solution/canopy_cover.py:80-461 | after any daily update: cc_prev is the entry cover, a dead crop stays dead, a seed never becomes protected, potential cover >= actual cover (4 decimals), and both adjusted covers are the adjustment of the final covers |
| CanopyCover.OutOfSeasonReset | aquacrop/solution/canopy_cover.py:452-461 | outside the growing season exactly the eight cover and maximum fields become 0 and nothing else changes |
| CanopyCover.NoCanopyBeforeEmergence | aquacrop/solution/canopy_cover.py:178-182 | in season before emergence the cover is 0, CC0 adjusted is CC0, and the senescence fields and death flag keep their entry values |
| CanopyCover.EarlySenescenceBookkeeping | aquacrop/solution/canopy_cover.py:319-332 | on a day of early senescence (from emergence, before senescence or already senescing, Ksw.sen <= 0.5, seed not protected) the flag is set, the counter advances by dtCC and the onset cover is recorded on the first day only |
| CanopyCover.EarlySenescenceCaps | aquacrop/solution/canopy_cover.py:380-404 | under early senescence before the senescence stage the final cover is CCx actual (or 0), capped by CCx and the entry cover; after the stage it never exceeds the cover before the block |
| CanopyCover.NoStressBookkeeping | aquacrop/solution/canopy_cover.py:412-432 | without senescence stress in that window the flag and the counter are cleared |
| CanopyCover.UpdateCanopyCover | aquacrop/solution/canopy_cover.py:34-463 | the in-place update of the conditions object equals the specification function CanopyStep on the entry state, and leaves the other fields alone |
| CanopyCover.ResetStep | aquacrop/solution/canopy_cover.py:452-461 | the out-of-season branch in place equals Reset |
| CanopyCover.DayOf | aquacrop/solution/canopy_cover.py:84-133 | the day's operative depletion, stress coefficients and timing equal Today |
| CanopyCover.InSeasonStep | aquacrop/solution/canopy_cover.py:136-450 | the in-season branch in place equals InSeason |
| CanopyCover.PotentialStep | aquacrop/solution/canopy_cover.py:136-175 | the potential phase in place equals Potential |
| CanopyCover.ActualStep | aquacrop/solution/canopy_cover.py:178-316 | the actual phase in place equals Actual |
| CanopyCover.ActualGrowthStep | aquacrop/solution/canopy_cover.py:183-282 | the growth branch in place equals ActualGrowth |
| CanopyCover.SeedlingGrowthStep | aquacrop/solution/canopy_cover.py:185-202 | the small-canopy branch in place equals SeedlingGrowth |
| CanopyCover.StressedGrowthStep | aquacrop/solution/canopy_cover.py:204-270 | the stressed-growth branch in place equals StressedGrowth |
| CanopyCover.CropDeathStep | aquacrop/solution/canopy_cover.py:313-316 | the death check in place equals CropDeath |
| CanopyCover.SenescenceStep | aquacrop/solution/canopy_cover.py:319-436 | the senescence block in place equals Senescence |
| CanopyCover.EarlySenescenceStep | aquacrop/solution/canopy_cover.py:323-410 | early senescence in place equals EarlySenescence |
| CanopyCover.SenescenceDeclineStep | aquacrop/solution/canopy_cover.py:335-404 | the cover update under early senescence in place equals SenescenceDecline |
| CanopyCover.NoStressStep | aquacrop/solution/canopy_cover.py:412-432 | the no-stress branch in place equals NoStress |
| CanopyCover.RewaterStep | aquacrop/solution/canopy_cover.py:415-429 | late-season rewatering in place equals Rewater |
| CanopyCover.MicroAdvectiveStep | aquacrop/solution/canopy_cover.py:440-443 | the micro-advective check in place equals MicroAdvective |
| CapillaryRise.RiseLimitBounds | aquacrop/solution/capillary_rise.py:51-60 | the maximum rise is in [0, 99] (99 on its rounding) and is 0 when the soil does not conduct or the table is absent or 4 m or more below |
| CapillaryRise.DrivingForceRange | aquacrop/solution/capillary_rise.py:111-125 | the driving force is clamped to [0, 1] at 4 decimals, and is 1 below the wilting point or with a non-positive shape factor |
| CapillaryRise.RelativeConductivityShape | aquacrop/solution/capillary_rise.py:128-136 | Krel is 1 from thThr = (wp + fc) / 2 on, 0 at or below the wilting point, and strictly between 0 and 1 in between |
| CapillaryRise.StoreConserves | aquacrop/solution/capillary_rise.py:139-153 | the rise a compartment takes is exactly the water it gains, and it never loses water with a non-negative driving force |
| CapillaryRise.StoreBounds | aquacrop/solution/capillary_rise.py:139-151 | the rise left never grows; a compartment changes only with room below adjusted field capacity and its midpoint above the table, and is then filled to it or raised by no more than the room |
| CapillaryRise.Restrict | aquacrop/solution/capillary_rise.py:174-175 | restricting MaxCR never raises it |
| CapillaryRise.AdvanceEffect | aquacrop/solution/capillary_rise.py:105-175 | one pass changes only the current compartment, adds exactly its gain to WCr, never raises MaxCR, and leaves the compartment admissible |
| CapillaryRise.RunConserves | aquacrop/solution/capillary_rise.py:103-178 | conservation: the total rise CrTot equals the water added to the profile |
| CapillaryRise.RunAdmissible | aquacrop/solution/capillary_rise.py:103-178 | every compartment ends unchanged, or changed only where there was room and it lay above the table, and is then filled to adjusted field capacity or raised by at most the room |
| CapillaryRise.RunMonotone | aquacrop/solution/capillary_rise.py:103-178 | where every reachable driving force is non-negative no compartment loses water |
| CapillaryRise.OutcomeConserves | aquacrop/solution/capillary_rise.py:43-178 | without a water table nothing changes and CrTot is 0; with one, CrTot is the water added |
| CapillaryRise.Outcome | aquacrop/solution/capillary_rise.py:5-180 | the specification of the whole routine: without a table th unchanged and CrTot 0, with one the compartment loop from the bottom; its properties are OutcomeConserves, RunAdmissible and RunMonotone |
| CapillaryRise.StartBounds | aquacrop/solution/capillary_rise.py:48-60 | the first MaxCR is in [0, 99] (99 on its 4-decimal rounding) |
| CapillaryRise.Visit | aquacrop/solution/capillary_rise.py:139-153 | the visit of one compartment in place equals Store |
| CapillaryRise.AdvanceStep | aquacrop/solution/capillary_rise.py:105-175 | one loop pass on the array equals Advance |
| CapillaryRise.CapillaryRise | aquacrop/solution/capillary_rise.py:5-180 | the in-place update of th and the returned CrTot equal Outcome |
| GroundwaterTable.FirstAtOrBelowSpec | aquacrop/solution/check_groundwater_table.py:62-69 | the search finds the least compartment whose midpoint is at or below the table, and None only when there is none |
| GroundwaterTable.SaturatedEffect | aquacrop/solution/check_groundwater_table.py:67-71 | every compartment at or below the table is saturated; a compartment above every such one keeps its water content |
| GroundwaterTable.Saturated | aquacrop/solution/check_groundwater_table.py:62-71 | the specification of the saturation: th_s from the first compartment whose midpoint is at or below the table; its properties are SaturatedEffect |
| GroundwaterTable.Saturate | aquacrop/solution/check_groundwater_table.py:68-71 | saturation in place equals Saturated |
| GroundwaterTable.XmaxBounds | aquacrop/solution/check_groundwater_table.py:78-85 | Xmax is positive, 1 for field capacity <= 0.1 and 2 for >= 0.3 (2 decimals), with pF strictly between 2 and 2.3 in between |
| GroundwaterTable.AdjustedFcBetween | aquacrop/solution/check_groundwater_table.py:94-102 | inside the fringe the adjusted field capacity lies between field capacity and saturation, and is saturation at or below the table |
| GroundwaterTable.FcAdjustedShape | aquacrop/solution/check_groundwater_table.py:74-104 | above the stop compartment the plain field capacity; the stop is the first compartment from below at least Xmax above the table and gets 0; every deeper one is within the fringe and between field capacity and saturation |
| GroundwaterTable.FcAdjusted | aquacrop/solution/check_groundwater_table.py:74-107 | the specification of the adjusted field capacities of the bottom-up scan; its properties are FcAdjustedShape, AdjustedFcBetween and NoTableStopsAtBottom |
| GroundwaterTable.NoTableStopsAtBottom | aquacrop/solution/check_groundwater_table.py:87-92 | with a negative table depth the scan stops at the bottom compartment |
| GroundwaterTable.AdjustFieldCapacity | aquacrop/solution/check_groundwater_table.py:74-104 | the bottom-up scan into a fresh zeroed array equals FcAdjusted |
| GroundwaterTable.CheckGroundwaterTable | aquacrop/solution/check_groundwater_table.py:15-111 | without a table the adjusted field capacities come back with None and th is untouched; with one th is saturated in place and the fresh adjusted capacities are returned twice |
| WeatherInputs.ReadWeatherInputsErrors | aquacrop/initialize/read_weather_inputs.py:32-40 | each of the errors is raised exactly when its condition holds and the earlier ones do not; success exactly when the table covers the period |
| WeatherInputs.ReadWeatherInputs | aquacrop/initialize/read_weather_inputs.py:10-55 | the specification of the reader: its errors in source order, else the clipped, deduplicated, reindexed and forward-filled table; its properties are ReadWeatherInputsErrors, ReadWeatherInputsDates and ReadWeatherInputsValues |
| WeatherInputs.ReadWeatherInputsDates | aquacrop/initialize/read_weather_inputs.py:43-52 | the result has consecutive days inside the period, from the earliest to the latest date of an input row in it; empty exactly when no row is in the period |
| WeatherInputs.ReadWeatherInputsValues | aquacrop/initialize/read_weather_inputs.py:43-52 | on a day with input rows a value present in the first such row is kept; a missing value, or one on an inserted day, is the previous day's, or missing on the first day |
| WeatherInputs.DedupSpec | aquacrop/initialize/read_weather_inputs.py:49 | deduplication keeps the first row of each date, only input rows, and leaves no repeated date |
| WeatherInputs.RetainedSpec | aquacrop/initialize/read_weather_inputs.py:43-49 | the retained rows are input rows inside the period with distinct dates, and give the first input row of each date |
| WeatherInputs.ReindexSpec | aquacrop/initialize/read_weather_inputs.py:50 | reindexing gives one row per consecutive day, the row of that day when there is one and all-missing otherwise |
| WeatherInputs.FilledSpec | aquacrop/initialize/read_weather_inputs.py:51 | a present value stays; a missing one takes the latest earlier present value, and stays missing when there is none |
| OutputBuffers.Output.constructor | aquacrop/entities/output.py:24-40 | water storage has 4 + compartments columns, water flux 17 and crop growth 14, one row per day, all zero; the statistics table has the six named columns and no rows |
| FinishedOutputs.OutputsWhenModelIsFinishedSpec | aquacrop/timestep/outputs_when_model_is_finished.py:42-101 | False unless the model or the steps are finished; otherwise the flux, storage and growth tables with one distinct name per column, the storage names being the four leading ones then th1, th2, ... |
| FinishedOutputs.OutputsWhenModelIsFinished | aquacrop/timestep/outputs_when_model_is_finished.py:8-101 | the specification of the finaliser: False unless finished, else the three named tables; its properties are OutputsWhenModelIsFinishedSpec |
| FinishedOutputs.StorageColumnsSpec | aquacrop/timestep/outputs_when_model_is_finished.py:69-75 | column k >= 4 is "th" followed by k - 3 in decimal, and all names differ |
| FinishedOutputs.NatToStringInjective | aquacrop/timestep/outputs_when_model_is_finished.py:71 | different compartment numbers give different names |
| FinishedOutputs.FixedColumnsDistinct | aquacrop/timestep/outputs_when_model_is_finished.py:45-97 | the fixed flux and growth names are all different |
| DateTime.ParseFormatted | aquacrop/core.py:962-977 | every calendar date written as YYYY/MM/DD (or with dashes) is read back unchanged |
| DateTime.Strptime | aquacrop/core.py:970-977 | `strptime` with `%Y/%m/%d` (or dashes): 4-digit year, 1- or 2-digit month and day, nothing after; what it accepts is always a valid calendar date |
| Core.SimDateFormatSpec | aquacrop/core.py:962-977 | every calendar date written as YYYY/MM/DD is accepted, and an accepted text has at least 8 characters with '/' at index 4 |
| Core.SimDateFormatIsCorrect | aquacrop/core.py:962-977 | True exactly when the text parses as YYYY/MM/DD; its properties are SimDateFormatSpec |
| Core.WeatherDataCurrentTimestepSpec | aquacrop/core.py:980-993 | the step answer has exactly the five weather fields, each the cell of row t, and fails only past the last row |
| Core.WeatherDataCurrentTimestep | aquacrop/core.py:980-993 | the five weather fields of row time_step_counter, an error past the last row; its properties are WeatherDataCurrentTimestepSpec |
| Core.PerformTimestep | aquacrop/core.py:341-394 | a time step succeeds exactly when the clock is within the weather table, otherwise it fails with the missing-row error; on success it is the engine's step on that day's weather |
| Core.WithDefaultsSpec | aquacrop/core.py:129-151 | a given collaborator is kept; a missing one becomes the default, irrigation method 0 for irrigation |
| Core.TillTerminationFinishes | aquacrop/core.py:288-312 | running to termination, when it does not fail, ends with the clock reporting the model finished |
| Core.TillTermination | aquacrop/core.py:288-312 | the specification of the till-termination loop: controller, then time step, until the clock reports the model finished; its properties are TillTerminationFinishes |
| Core.StepsFromSpec | aquacrop/core.py:313-339 | step mode takes at most num_steps steps, stops early only when the model finishes, and raises the steps-are-finished flag only for the last step when outputs are processed |
| Core.StepsFrom | aquacrop/core.py:313-339 | the specification of the step-mode loop from iteration i; its properties are StepsFromSpec |
| Core.AquaCropModel.Blank | aquacrop/core.py:115-151 | a fresh model has the given weather and settings, all flags false, and nothing initialised |
| Core.AquaCropModel.SetSimStartTime | aquacrop/core.py:160-169 | the value is stored exactly when it parses as YYYY/MM/DD, otherwise the error and nothing changes |
| Core.AquaCropModel.SetSimEndTime | aquacrop/core.py:178-186 | the value is stored exactly when it parses as YYYY/MM/DD, otherwise the error and nothing changes |
| Core.AquaCropModel.SetWeatherDf | aquacrop/core.py:195-207 | the table is stored exactly when it has the five required columns, otherwise the error and nothing changes |
| Core.AquaCropModel.Create | aquacrop/core.py:115-151 | construction fails exactly when a setter fails, with the first failing setter's error; otherwise the defaults are filled in and all flags are false |
| Core.AquaCropModel.Initialize | aquacrop/core.py:209-256 | the run state is the simulation's start, and the clipped weather goes through the validating setter |
| Core.AquaCropModel.RunTillTermination | aquacrop/core.py:288-312 | the loop's result is TillTermination's; on success the model is executed and finished and the clock reports it |
| Core.AquaCropModel.RunSteps | aquacrop/core.py:313-339 | the loop's result is StepsFrom's; on success the model is executed, finished as the outcome says, with its steps-are-finished flag |
| Core.AquaCropModel.RunModel | aquacrop/core.py:258-339 | initialise if asked, passing on its failure; in step mode refuse num_steps < 1 before anything else is checked; then refuse an uninitialised model; from the initialised (or freshly initialised) run state the outcome is TillTermination's or StepsFrom's, over the (clipped) weather table; a successful call answers True with the model executed, and finished after till-termination |
| Core.AquaCropModel.GetSimulationResults | aquacrop/core.py:396-410 | raises exactly before a run; False exactly when the run has not finished; otherwise the final statistics |
| Core.AquaCropModel.GetWaterStorage | aquacrop/core.py:412-422 | the water-storage output exactly when the model has run, else the error |
| Core.AquaCropModel.GetWaterFlux | aquacrop/core.py:513-523 | the water-flux output exactly when the model has run, else the error |
| Core.AquaCropModel.GetCropGrowth | aquacrop/core.py:669-679 | the crop-growth output exactly when the model has run, else the error |
| Core.AquaCropModel.GetAdditionalInformation | aquacrop/core.py:941-959 | the finished flag exactly when the model has run, else the error |
| WeatherStations.LeapTestsAgree | aquacrop_wrapper/weather_data/weather_ria_stations.py:346-363 | the nested leap test and the inline one are both the Gregorian rule |
| WeatherStations.CheckIfAYearIsLeap | aquacrop_wrapper/weather_data/weather_ria_stations.py:346-363 | the nested leap test of the station client; its properties are LeapTestsAgree |
| WeatherStations.FirstWith | aquacrop_wrapper/weather_data/weather_ria_stations.py:315-316 | the first record whose date contains the text, or None when none does |
| WeatherStations.BeforeDash | aquacrop_wrapper/weather_data/weather_ria_stations.py:312 | the text before the first '-' is a prefix without '-', followed by '-' when shorter |
| WeatherStations.WithLeapDaySpec | aquacrop_wrapper/weather_data/weather_ria_stations.py:312-330 | fails only on an empty list or one without 28 February; otherwise a copy of the first 28 February, dated 29 February of the first record's year, sits right after it, and every other record keeps its date and readings, its day number moved on past list index 59 |
| WeatherStations.WithLeapDay | aquacrop_wrapper/weather_data/weather_ria_stations.py:304-330 | the specification of adding 29 February; its properties are WithLeapDaySpec and RemoveUndoesAdd |
| WeatherStations.DayList.CreateAWeatherDataWith29Of2 | aquacrop_wrapper/weather_data/weather_ria_stations.py:304-330 | the in-place insertion and renumbering loop equals WithLeapDay, and changes nothing on error |
| WeatherStations.WithoutSpec | aquacrop_wrapper/weather_data/weather_ria_stations.py:341-342 | removal keeps exactly the records with another date |
| WeatherStations.RemoveLeapDay | aquacrop_wrapper/weather_data/weather_ria_stations.py:332-343 | removal of the records dated 29 February of the year before day_date; its properties are WithoutSpec and RemoveUndoesAdd |
| WeatherStations.WithoutAppend | aquacrop_wrapper/weather_data/weather_ria_stations.py:341-342 | removal works record by record, keeping order |
| WeatherStations.RemoveUndoesAdd | aquacrop_wrapper/weather_data/weather_ria_stations.py:304-343 | removing 29 February of the year before day_date after adding it gives back every record's date and readings in place |
| WeatherStations.DateInYear | aquacrop_wrapper/weather_data/weather_ria_stations.py:293-299 | the date k days into a year is a valid date of that year at that day count |
| WeatherStations.DateAfterOrdinal | aquacrop_wrapper/weather_data/weather_ria_stations.py:293-299 | adding days is ordinal arithmetic, None only when the date leaves years 1 to 9999 |
| WeatherStations.JulianDaySpec | aquacrop_wrapper/weather_data/weather_ria_stations.py:288-301 | day d from 1 to 366 is the date d - 1 days after 1 January of 2020 or 2019; day 60 is 29 February in the leap base and 1 March in the other |
| WeatherStations.GetDateUsingJulianDay | aquacrop_wrapper/weather_data/weather_ria_stations.py:288-301 | the date day_of_the_year - 1 days after 1 January of 2020 (leap) or 2019; its properties are JulianDaySpec |
| WeatherStations.ReadDaysSpec | aquacrop_wrapper/weather_data/weather_ria_stations.py:216-250 | reading the records succeeds exactly when every date parses and every reading is present, and then reads each record |
| WeatherStations.ReadFailure | aquacrop_wrapper/weather_data/weather_ria_stations.py:216-218 | the first unreadable record makes the whole reading fail with its error |
| WeatherStations.GroupSpec | aquacrop_wrapper/weather_data/weather_ria_stations.py:216-250 | each year that occurs has an entry with the calendar leap flag, day count 0, and its records' readings in order; no other year has one |
| WeatherStations.AddDaySpec | aquacrop_wrapper/weather_data/weather_ria_stations.py:222-250 | a record is appended to its year, the year created with its leap flag on first sight, and other years are untouched |
| WeatherStations.MaxOf | aquacrop_wrapper/weather_data/weather_ria_stations.py:253 | the last year is the largest one |
| WeatherStations.DropTrailingYear | aquacrop_wrapper/weather_data/weather_ria_stations.py:253-257 | exactly the largest year is deleted when it has fewer than 365 days; the other entries are unchanged |
| WeatherStations.FillLeapDaySpec | aquacrop_wrapper/weather_data/weather_ria_stations.py:262-269 | a 365-day year becomes 366 days with the mean of its entries 58 and 60 at index 59 and the rest moved one place later; other lengths are left alone; filling twice is filling once |
| WeatherStations.FillYearTwice | aquacrop_wrapper/weather_data/weather_ria_stations.py:259-269 | the fill with its day count is idempotent |
| WeatherStations.PreparedYearsSpec | aquacrop_wrapper/weather_data/weather_ria_stations.py:216-269 | fails exactly on unreadable or no records; a year is kept exactly when a record falls in it and it is not an incomplete last year; each kept year holds its readings in order with the leap day filled, the calendar leap flag and its day count |
| WeatherStations.PreparedYears | aquacrop_wrapper/weather_data/weather_ria_stations.py:216-269 | the specification of the per-year preparation: read, group, drop an incomplete last year, fill the leap day; its properties are PreparedYearsSpec |
| WeatherStations.GroupDays | aquacrop_wrapper/weather_data/weather_ria_stations.py:216-250 | the grouping loop equals reading then Group |
| WeatherStations.FillLeapDays | aquacrop_wrapper/weather_data/weather_ria_stations.py:259-269 | the fill loop over the years equals FillAll |
| WeatherStations.GetMeansFromWeatherData | aquacrop_wrapper/weather_data/weather_ria_stations.py:216-269 | the method equals PreparedYears |
| WeatherStations.TransformSpec | aquacrop_wrapper/weather_data/weather_ria_stations.py:374-392 | every row keeps its date and temperatures; missing precipitation becomes 0.0; a present ReferenceET is at least 0.1 and is the reading when that is at least 0.1; missing stays missing |
| WeatherStations.TransformDataIntoAquacropFormat | aquacrop_wrapper/weather_data/weather_ria_stations.py:366-392 | the row-by-row conversion to the AquaCrop columns; its properties are TransformSpec |

## Left out

- I/O, timing and charts: `time.time()`, the execution time in `get_additional_information`, the chart getters of `core.py`, and the station client's `print("done")`.
- Floating point: all arithmetic is on reals. `np.exp`, `np.log`, `**` with a real exponent, and a division by zero become parameters (`FloatOps`). Only exp(x) > 0 is assumed, and only where a lemma requires it.
- Unseen helpers of the canopy update are parameters without assumed properties: `root_zone_water`, `water_stress`, `cc_development`, `cc_required_time`, `update_CCx_CDC` and `adjust_CCx`.
- The commented-out layer restriction at capillary_rise.py:62-100 and the unused `Soil_nLayer` argument.
- CanopyCover.UpdateCanopyCover: in season it requires calendar type 1 or 2. For any other type the source leaves tCCadj unbound (canopy_cover.py:136) and fails; out of season any type is accepted, as in the source.
- CapillaryRise.CapillaryRise: requires the water-table flag to be 0 or 1. For any other value the source leaves CrTot unbound and fails.
- GroundwaterTable.CheckGroundwaterTable: requires a table depth that does not round below zero when a table is present. There the source leaves the in-soil flag unbound and fails.
- GroundwaterTable.CheckGroundwaterTable: the local copy of the groundwater depth it assigns is not returned, so it is not modelled.
- The compartment where the field-capacity scan stops keeps the 0 its array was created with (`range(compi)` excludes it). This is reproduced as written.
- FinishedOutputs.OutputsWhenModelIsFinished: the finaliser names 18 flux and 15 growth columns, while `Output` allocates 17 and 14. Building a table with mismatched names raises, so equal widths are an explicit precondition. Buffers as allocated therefore cannot be named.
- CapillaryRise.RunMonotone: holds only where every reachable driving force is non-negative. The clamp tests the 4-decimal rounding, so a driving force just below zero (above -0.00005) is kept as it is.
- Core: the model engine is a parameter, `Engine`. It stands for `_initialize`'s readers, `solution_single_time_step`, `check_model_is_finished`, `update_time` and the finaliser call inside `_perform_timestep`.
- Core.AquaCropModel.RunModel: till-termination requires the engine to advance the clock and the controller callback not to move it back. Without that the source can loop forever.
- Core: weather dates are day numbers, and table cells are a date or a number. Pandas dtypes and indexing are not modelled.
- Core.AquaCropModel.GetAdditionalInformation: returns only the finished flag, without the execution time.
- WeatherStations: the averaging over years at weather_ria_stations.py:271-286 is not modelled. It computes values it never returns.
- WeatherStations.GetMeansFromWeatherData: answers Ok with the prepared years where the source then raises IndexError in that averaging (weather_ria_stations.py:279): a kept year with fewer than 366 entries, such as 2019 from records of 2019-07-01 to 2021-01-01 (184 readings), is indexed up to day 365.
- DateTime.Strptime: accepts ASCII digits only. Python's `strptime` matches any Unicode decimal digit, so a date written with full-width digits passes the source's format check and fails SimDateFormatIsCorrect.
- WeatherStations: the `groupby` mean and date column at weather_ria_stations.py:187-195 are not modelled. They are never used afterwards.
- WeatherStations: the daily resample and forward fill of the transform at weather_ria_stations.py:394-399 are not modelled.
- WeatherStations: the RIA network client (`get_json_data`, `get_json_with_weather_data`) and `complete_data_with_*` are left out. They are network I/O.
- WeatherStations: readings are reals. A record lacking a reading fails with MissingReading, and None readings are not modelled.
- WeatherStations.FillLeapDaySpec: the fill averages list entries 58 and 60 of a 365-day year, which are 28 February and 2 March. This is reproduced as written.
- WeatherStations.DayList.CreateAWeatherDataWith29Of2: records are values in a sequence field. Sharing of the record dictionaries between lists is not modelled.
- The `aquacrop_wrapper` layer outside the weather-station helpers is not part of this model.
