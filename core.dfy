/**
 * AquaCropModel: the model object a caller builds, runs and reads results
 * from. Its setters validate the simulation dates and the weather table,
 * missing collaborators are replaced by defaults, run_model either steps a
 * given number of days or runs to the end of the simulation, and the
 * result getters raise, answer False or return data depending on two flags.
 *
 * The simulation itself (_initialize and the body of _perform_timestep) is
 * not part of this model: it is an `Engine` value whose functions the model
 * calls, with the conditions and parameters it threads through kept opaque
 * as the type parameter `Sim`.
 */
module Core {
  import opened Wrappers
  import opened DateTime
  import opened OutputBuffers
  import opened FinishedOutputs

  // ---------------------------------------------------------------------
  // Values the model object holds

  datatype ModelError =
    | BadStartTime              // sim_start_time format must be 'YYYY/MM/DD'
    | BadEndTime                // sim_end_time format must be 'YYYY/MM/DD'
    | BadWeatherColumns         // a required weather column is missing
    | BadNumSteps               // num_steps must be equal to or greater than 1
    | NotRun                    // results asked for before run_model
    | NotInitialized            // run_model without a previous initialisation
    | WeatherRowMissing         // no weather row for the current time step
    | InitializationFailed(reason: string)

  /** A weather cell: the date of the row, or a number. */
  datatype Cell = Day(ordinal: int) | Number(value: real)

  /** A weather table: its column labels and, per row, the cell under each label. */
  datatype WeatherTable = WeatherTable(columns: seq<string>, rows: seq<map<string, Cell>>)
  {
    predicate Valid()
    {
      forall i :: 0 <= i < |rows| ==> rows[i].Keys == set c | c in columns
    }
  }

  const WeatherColumns: seq<string> := ["Date", "MinTemp", "MaxTemp", "Precipitation", "ReferenceET"]

  /** Irrigation management; only the method number is visible to this model. */
  datatype IrrigationManagement = IrrigationManagement(irrigationMethod: int)

  /** A collaborator object: one the caller supplied (identified only), or the class's default instance. */
  datatype Component = Supplied(id: nat) | Default

  /** Everything __init__ stores besides the dates and the weather. */
  datatype Settings = Settings(
    soil: Component, crop: Component, initialWaterContent: Component,
    irrigationManagement: IrrigationManagement, fieldManagement: Component,
    fallowFieldManagement: Component, groundwater: Component, co2Concentration: Component)

  /** The clock fields run_model looks at. */
  datatype Clock = Clock(timeStepCounter: nat, timeSpanLength: nat, modelIsFinished: bool)

  /** A buffer during the run, or the named table it becomes at the end. */
  datatype TableValue = Buffer(matrix: Matrix) | Named(frame: Frame)

  datatype OutputTables = OutputTables(waterFlux: TableValue, waterStorage: TableValue, cropGrowth: TableValue,
                                       finalStats: StatsTable)

  /** The clock, conditions and parameters, and outputs after initialisation or a time step. */
  datatype Run<Sim> = Run(clock: Clock, sim: Sim, outputs: OutputTables)

  /** What _initialize produces: the run state and the clipped weather table. */
  datatype Started<Sim> = Started(run: Run<Sim>, weather: WeatherTable)

  /**
   * The simulation the model drives: _initialize, and one time step given
   * the day's weather fields and the steps-are-finished flag.
   */
  datatype Engine<!Sim> = Engine(
    initialize: (string, string, WeatherTable, Settings) -> Result<Started<Sim>, string>,
    timestep: (Run<Sim>, map<string, Cell>, bool) -> Run<Sim>)

  // ---------------------------------------------------------------------
  // Module-level helpers

  /** _sim_date_format_is_correct: strptime(date, "%Y/%m/%d") succeeds. */
  predicate SimDateFormatIsCorrect(date: string)
  {
    Strptime(date, '/').Some?
  }

  /** Every calendar date written as YYYY/MM/DD is accepted, and nothing shorter than 8 characters is. */
  lemma SimDateFormatSpec(d: Date, s: string)
    requires ValidDate(d)
    ensures SimDateFormatIsCorrect(Format(d, '/'))
    ensures SimDateFormatIsCorrect(s) ==> 8 <= |s| && s[4] == '/'
  {
    ParseFormatted(d, '/');
    if SimDateFormatIsCorrect(s) {
      var rest := s[5..];
      var monthLength := if |rest| > 1 && rest[1] == '/' then 1 else 2;
      assert DayToken(rest[monthLength + 1..]).Some?;
    }
  }

  /** All the required weather columns are present. */
  predicate HasWeatherColumns(df: WeatherTable)
  {
    forall c :: c in WeatherColumns ==> c in df.columns
  }

  /** _weather_data_current_timestep: the five weather fields of row t. */
  function WeatherDataCurrentTimestep(df: WeatherTable, t: nat): Result<map<string, Cell>, ModelError>
    requires df.Valid() && HasWeatherColumns(df)
  {
    if t >= |df.rows| then Err(WeatherRowMissing)
    else Ok(map c | c in WeatherColumns :: df.rows[t][c])
  }

  /** The step answer has exactly the five weather fields, each the cell of row t; it fails only past the last row. */
  lemma WeatherDataCurrentTimestepSpec(df: WeatherTable, t: nat)
    requires df.Valid() && HasWeatherColumns(df)
    ensures var r := WeatherDataCurrentTimestep(df, t);
            (r.Ok? <==> t < |df.rows|)
            && (r.Ok? ==> r.value.Keys == {"Date", "MinTemp", "MaxTemp", "Precipitation", "ReferenceET"}
                          && forall c :: c in r.value ==> c in df.rows[t] && r.value[c] == df.rows[t][c])
  {
    if t < |df.rows| {
      var m := WeatherDataCurrentTimestep(df, t).value;
      assert m.Keys == set c | c in WeatherColumns;
      assert (set c | c in WeatherColumns) == {"Date", "MinTemp", "MaxTemp", "Precipitation", "ReferenceET"};
    }
  }

  /** Defaults for the optional collaborators of __init__. */
  function WithDefaults(soil: Component, crop: Component, initialWaterContent: Component,
                        irrigation: Option<IrrigationManagement>, field: Option<Component>,
                        fallow: Option<Component>, groundwater: Option<Component>,
                        co2: Option<Component>): Settings
  {
    Settings(soil, crop, initialWaterContent,
             if irrigation.Some? then irrigation.value else IrrigationManagement(0),
             if field.Some? then field.value else Default,
             if fallow.Some? then fallow.value else Default,
             if groundwater.Some? then groundwater.value else Default,
             if co2.Some? then co2.value else Default)
  }

  /** A given collaborator is kept; a missing one becomes the default, irrigation method 0 for irrigation. */
  lemma WithDefaultsSpec(soil: Component, crop: Component, initialWaterContent: Component,
                         irrigation: Option<IrrigationManagement>, field: Option<Component>,
                         fallow: Option<Component>, groundwater: Option<Component>, co2: Option<Component>)
    ensures var s := WithDefaults(soil, crop, initialWaterContent, irrigation, field, fallow, groundwater, co2);
            (irrigation.None? ==> s.irrigationManagement.irrigationMethod == 0)
            && (irrigation.Some? ==> s.irrigationManagement == irrigation.value)
            && (field.None? ==> s.fieldManagement == Default) && (field.Some? ==> s.fieldManagement == field.value)
            && (fallow.None? ==> s.fallowFieldManagement == Default)
            && (fallow.Some? ==> s.fallowFieldManagement == fallow.value)
            && (groundwater.None? ==> s.groundwater == Default)
            && (groundwater.Some? ==> s.groundwater == groundwater.value)
            && (co2.None? ==> s.co2Concentration == Default) && (co2.Some? ==> s.co2Concentration == co2.value)
            && s.soil == soil && s.crop == crop && s.initialWaterContent == initialWaterContent
  {
  }

  // ---------------------------------------------------------------------
  // The run loops as functions

  /** Days left in the time span. */
  function Remaining(c: Clock): nat
  {
    if c.timeStepCounter < c.timeSpanLength then c.timeSpanLength - c.timeStepCounter else 0
  }

  /**
   * What the run-to-termination loop needs of the simulation: every time
   * step either finishes the model or brings the clock closer to the end
   * of the time span.
   */
  ghost predicate Advances<Sim(!new)>(engine: Engine<Sim>)
  {
    forall r: Run<Sim>, w: map<string, Cell>, f: bool ::
      engine.timestep(r, w, f).clock.modelIsFinished || Remaining(engine.timestep(r, w, f).clock) < Remaining(r.clock)
  }

  /** What it needs of a controller callback: it never moves the clock back. */
  ghost predicate KeepsClock<Sim(!new)>(controller: Option<Run<Sim> -> Run<Sim>>)
  {
    controller.Some? ==> forall r: Run<Sim> :: Remaining(controller.value(r).clock) <= Remaining(r.clock)
  }

  /** _perform_timestep: read the day's weather, then step the simulation. */
  function PerformTimestep<Sim>(engine: Engine<Sim>, weather: WeatherTable, r: Run<Sim>, stepsAreFinished: bool)
    : (next: Result<Run<Sim>, ModelError>)
    requires weather.Valid() && HasWeatherColumns(weather)
    ensures next.Ok? <==> r.clock.timeStepCounter < |weather.rows|
    ensures next.Err? ==> next.error == WeatherRowMissing
  {
    var w := WeatherDataCurrentTimestep(weather, r.clock.timeStepCounter);
    if w.Err? then Err(w.error) else Ok(engine.timestep(r, w.value, stepsAreFinished))
  }

  function Control<Sim>(controller: Option<Run<Sim> -> Run<Sim>>, r: Run<Sim>): Run<Sim>
  {
    if controller.Some? then controller.value(r) else r
  }

  function Measure(c: Clock): nat
  {
    if c.modelIsFinished then 0 else Remaining(c) + 1
  }

  /** The till_termination loop: controller, then time step, while the model is not finished. */
  function TillTermination<Sim(!new)>(engine: Engine<Sim>, weather: WeatherTable,
                                     controller: Option<Run<Sim> -> Run<Sim>>, r: Run<Sim>, stepsAreFinished: bool)
    : Result<Run<Sim>, ModelError>
    requires weather.Valid() && HasWeatherColumns(weather) && Advances(engine) && KeepsClock(controller)
    decreases Measure(r.clock)
  {
    if r.clock.modelIsFinished then Ok(r)
    else
      var next := PerformTimestep(engine, weather, Control(controller, r), stepsAreFinished);
      if next.Err? then next
      else TillTermination(engine, weather, controller, next.value, stepsAreFinished)
  }

  /** Where the step-mode loop ends: the run state, the steps taken, whether the model finished, and the flag. */
  datatype StepOutcome<Sim> = StepOutcome(run: Run<Sim>, steps: nat, finished: bool, stepsAreFinished: bool)

  /** The step-mode loop from iteration i of numSteps. */
  function StepsFrom<Sim>(engine: Engine<Sim>, weather: WeatherTable, r: Run<Sim>, i: nat, numSteps: nat,
                          processOutputs: bool, stepsAreFinished: bool): Result<StepOutcome<Sim>, ModelError>
    requires weather.Valid() && HasWeatherColumns(weather) && i <= numSteps
    decreases numSteps - i
  {
    if i == numSteps then Ok(StepOutcome(r, i, false, stepsAreFinished))
    else
      var flag := if i == numSteps - 1 && processOutputs then true else stepsAreFinished;
      var next := PerformTimestep(engine, weather, r, flag);
      if next.Err? then Err(next.error)
      else if next.value.clock.modelIsFinished then Ok(StepOutcome(next.value, i + 1, true, flag))
      else StepsFrom(engine, weather, next.value, i + 1, numSteps, processOutputs, flag)
  }

  /** Running to termination, when it does not fail, ends with the clock reporting the model finished. */
  lemma {:induction false} TillTerminationFinishes<Sim(!new)>(engine: Engine<Sim>, weather: WeatherTable,
      controller: Option<Run<Sim> -> Run<Sim>>, r: Run<Sim>, stepsAreFinished: bool)
    requires weather.Valid() && HasWeatherColumns(weather) && Advances(engine) && KeepsClock(controller)
    ensures var t := TillTermination(engine, weather, controller, r, stepsAreFinished);
            t.Ok? ==> (t.value.clock.modelIsFinished && (r.clock.modelIsFinished ==> t.value == r))
    decreases Measure(r.clock)
  {
    if !r.clock.modelIsFinished {
      var next := PerformTimestep(engine, weather, Control(controller, r), stepsAreFinished);
      if next.Ok? {
        TillTerminationFinishes(engine, weather, controller, next.value, stepsAreFinished);
      }
    }
  }

  /**
   * Step mode from iteration i: at most numSteps steps in all; stopping
   * early only because the model finished; the outcome's finished flag is
   * the clock's; and the steps-are-finished flag is raised only for the last
   * of numSteps steps when outputs are to be processed.
   */
  lemma {:induction false} StepsFromSpec<Sim>(engine: Engine<Sim>, weather: WeatherTable, r: Run<Sim>, i: nat,
                                              numSteps: nat, processOutputs: bool, stepsAreFinished: bool)
    requires weather.Valid() && HasWeatherColumns(weather) && i <= numSteps
    ensures var o := StepsFrom(engine, weather, r, i, numSteps, processOutputs, stepsAreFinished);
            o.Ok? ==>
              i <= o.value.steps <= numSteps
              && (i < numSteps ==> o.value.steps > i)
              && (o.value.steps < numSteps ==> o.value.finished)
              && (o.value.finished ==> o.value.run.clock.modelIsFinished)
              && (!o.value.finished ==>
                    (o.value.steps == numSteps && (i < numSteps ==> !o.value.run.clock.modelIsFinished)
                     && (i == numSteps ==> o.value.run == r)))
              && o.value.stepsAreFinished
                 == (stepsAreFinished || (processOutputs && o.value.steps == numSteps && i < numSteps))
    decreases numSteps - i
  {
    if i < numSteps {
      var flag := if i == numSteps - 1 && processOutputs then true else stepsAreFinished;
      var next := PerformTimestep(engine, weather, r, flag);
      if next.Ok? && !next.value.clock.modelIsFinished {
        StepsFromSpec(engine, weather, next.value, i + 1, numSteps, processOutputs, flag);
      }
    }
  }

  // ---------------------------------------------------------------------
  // The model object

  class AquaCropModel<Sim(!new)> {
    var simStartTime: string
    var simEndTime: string
    var weatherDf: WeatherTable
    var settings: Settings
    var stepsAreFinished: bool
    var hasModelExecuted: bool
    var hasModelFinished: bool
    var state: Option<Run<Sim>>        // clock, conditions, parameters and outputs, once initialised

    /** The weather table always has its required columns, and results exist once the model has run. */
    predicate Valid()
      reads this
    {
      weatherDf.Valid() && HasWeatherColumns(weatherDf) && (hasModelExecuted ==> state.Some?)
    }

    /** The object __init__ fills in: the class-level flags all False, nothing initialised. */
    constructor Blank(weatherDf: WeatherTable, settings: Settings)
      ensures this.weatherDf == weatherDf && this.settings == settings
      ensures !stepsAreFinished && !hasModelExecuted && !hasModelFinished && state.None?
      ensures simStartTime == [] && simEndTime == []
    {
      simStartTime, simEndTime := [], [];
      this.weatherDf, this.settings := weatherDf, settings;
      stepsAreFinished, hasModelExecuted, hasModelFinished := false, false, false;
      state := None;
    }

    /** The sim_start_time setter. */
    method SetSimStartTime(value: string) returns (r: Result<(), ModelError>)
      modifies this
      ensures r.Ok? <==> SimDateFormatIsCorrect(value)
      ensures r.Err? ==> r.error == BadStartTime && simStartTime == old(simStartTime)
      ensures r.Ok? ==> simStartTime == value
      ensures unchanged(this`simEndTime, this`weatherDf, this`settings, this`state)
      ensures unchanged(this`stepsAreFinished, this`hasModelExecuted, this`hasModelFinished)
    {
      if SimDateFormatIsCorrect(value) {
        simStartTime := value;
        return Ok(());
      }
      return Err(BadStartTime);
    }

    /** The sim_end_time setter. */
    method SetSimEndTime(value: string) returns (r: Result<(), ModelError>)
      modifies this
      ensures r.Ok? <==> SimDateFormatIsCorrect(value)
      ensures r.Err? ==> r.error == BadEndTime && simEndTime == old(simEndTime)
      ensures r.Ok? ==> simEndTime == value
      ensures unchanged(this`simStartTime, this`weatherDf, this`settings, this`state)
      ensures unchanged(this`stepsAreFinished, this`hasModelExecuted, this`hasModelFinished)
    {
      if SimDateFormatIsCorrect(value) {
        simEndTime := value;
        return Ok(());
      }
      return Err(BadEndTime);
    }

    /** The weather_df setter. */
    method SetWeatherDf(value: WeatherTable) returns (r: Result<(), ModelError>)
      requires value.Valid()
      modifies this
      ensures r.Ok? <==> HasWeatherColumns(value)
      ensures r.Err? ==> r.error == BadWeatherColumns && weatherDf == old(weatherDf)
      ensures r.Ok? ==> weatherDf == value
      ensures unchanged(this`simStartTime, this`simEndTime, this`settings, this`state)
      ensures unchanged(this`stepsAreFinished, this`hasModelExecuted, this`hasModelFinished)
    {
      if !HasWeatherColumns(value) {
        return Err(BadWeatherColumns);
      }
      weatherDf := value;
      return Ok(());
    }

    /**
     * AquaCropModel(...): the three validating setters in order (the first
     * failure is raised), then the collaborators with their defaults.
     */
    static method Create(simStartTime: string, simEndTime: string, weatherDf: WeatherTable,
                         soil: Component, crop: Component, initialWaterContent: Component,
                         irrigation: Option<IrrigationManagement>, field: Option<Component>,
                         fallow: Option<Component>, groundwater: Option<Component>, co2: Option<Component>)
      returns (r: Result<AquaCropModel<Sim>, ModelError>)
      requires weatherDf.Valid()
      ensures r.Err? <==> !SimDateFormatIsCorrect(simStartTime) || !SimDateFormatIsCorrect(simEndTime)
                          || !HasWeatherColumns(weatherDf)
      ensures r.Err? ==> r.error == if !SimDateFormatIsCorrect(simStartTime) then BadStartTime
                                   else if !SimDateFormatIsCorrect(simEndTime) then BadEndTime
                                   else BadWeatherColumns
      ensures r.Ok? ==> var m := r.value;
                fresh(m) && m.Valid() && m.simStartTime == simStartTime && m.simEndTime == simEndTime
                && m.weatherDf == weatherDf
                && m.settings == WithDefaults(soil, crop, initialWaterContent, irrigation, field, fallow, groundwater, co2)
                && !m.stepsAreFinished && !m.hasModelExecuted && !m.hasModelFinished && m.state.None?
    {
      var settings := WithDefaults(soil, crop, initialWaterContent, irrigation, field, fallow, groundwater, co2);
      var m := new AquaCropModel<Sim>.Blank(weatherDf, settings);
      var e := m.SetSimStartTime(simStartTime);
      if e.Err? {
        return Err(e.error);
      }
      e := m.SetSimEndTime(simEndTime);
      if e.Err? {
        return Err(e.error);
      }
      e := m.SetWeatherDf(weatherDf);
      if e.Err? {
        return Err(e.error);
      }
      return Ok(m);
    }

    /** _initialize: the simulation's start, then the clipped weather table through the weather_df setter. */
    method Initialize(engine: Engine<Sim>) returns (r: Result<(), ModelError>)
      requires Valid()
      modifies this
      ensures Valid()
      ensures var s := engine.initialize(old(simStartTime), old(simEndTime), old(weatherDf), settings);
              (s.Err? ==> r == Err(InitializationFailed(s.error)) && unchanged(this))
              && (s.Ok? && !s.value.weather.Valid() ==> r == Err(BadWeatherColumns) && unchanged(this))
              && (s.Ok? && s.value.weather.Valid() ==>
                    (r.Ok? <==> HasWeatherColumns(s.value.weather))
                    && state == Some(s.value.run)
                    && (r.Ok? ==> weatherDf == s.value.weather)
                    && (r.Err? ==> r.error == BadWeatherColumns && weatherDf == old(weatherDf)))
      ensures unchanged(this`simStartTime, this`simEndTime, this`settings)
      ensures unchanged(this`stepsAreFinished, this`hasModelExecuted, this`hasModelFinished)
    {
      var s := engine.initialize(simStartTime, simEndTime, weatherDf, settings);
      if s.Err? {
        return Err(InitializationFailed(s.error));
      }
      if !s.value.weather.Valid() {
        return Err(BadWeatherColumns);
      }
      state := Some(s.value.run);
      r := SetWeatherDf(s.value.weather);
    }

    /** The till_termination branch of run_model, from an initialised model. */
    method RunTillTermination(engine: Engine<Sim>, controller: Option<Run<Sim> -> Run<Sim>>)
      returns (r: Result<bool, ModelError>)
      requires Valid() && state.Some? && Advances(engine) && KeepsClock(controller)
      modifies this`state, this`hasModelExecuted, this`hasModelFinished
      ensures Valid() && state.Some?
      ensures var t := TillTermination(engine, weatherDf, controller, old(state).value, stepsAreFinished);
              (r.Ok? <==> t.Ok?)
              && (r.Ok? ==> r.value && state == Some(t.value) && hasModelExecuted && hasModelFinished
                            && state.value.clock.modelIsFinished)
              && (r.Err? ==> r.error == t.error && unchanged(this`hasModelExecuted, this`hasModelFinished))
    {
      var s := state.value;
      ghost var goal := TillTermination(engine, weatherDf, controller, s, stepsAreFinished);
      TillTerminationFinishes(engine, weatherDf, controller, s, stepsAreFinished);
      while !s.clock.modelIsFinished
        invariant TillTermination(engine, weatherDf, controller, s, stepsAreFinished) == goal
        decreases Measure(s.clock)
      {
        if controller.Some? {
          s := controller.value(s);
        }
        var next := PerformTimestep(engine, weatherDf, s, stepsAreFinished);
        if next.Err? {
          state := Some(s);
          return Err(next.error);
        }
        s := next.value;
      }
      state := Some(s);
      hasModelExecuted, hasModelFinished := true, true;
      return Ok(true);
    }

    /** The step-mode branch of run_model, from an initialised model and num_steps >= 1. */
    method RunSteps(engine: Engine<Sim>, numSteps: nat, processOutputs: bool) returns (r: Result<bool, ModelError>)
      requires Valid() && state.Some? && numSteps >= 1
      modifies this`state, this`stepsAreFinished, this`hasModelExecuted, this`hasModelFinished
      ensures Valid() && state.Some?
      ensures var o := StepsFrom(engine, weatherDf, old(state).value, 0, numSteps, processOutputs, old(stepsAreFinished));
              (r.Ok? <==> o.Ok?)
              && (r.Ok? ==> r.value && state == Some(o.value.run) && hasModelExecuted
                            && hasModelFinished == o.value.finished && stepsAreFinished == o.value.stepsAreFinished)
              && (r.Err? ==> r.error == o.error && unchanged(this`hasModelExecuted, this`hasModelFinished))
    {
      var s := state.value;
      ghost var goal := StepsFrom(engine, weatherDf, s, 0, numSteps, processOutputs, stepsAreFinished);
      var i := 0;
      while i < numSteps
        invariant 0 <= i <= numSteps
        invariant StepsFrom(engine, weatherDf, s, i, numSteps, processOutputs, stepsAreFinished) == goal
        invariant unchanged(this`hasModelExecuted, this`hasModelFinished)
      {
        if i == numSteps - 1 && processOutputs {
          stepsAreFinished := true;
        }
        var next := PerformTimestep(engine, weatherDf, s, stepsAreFinished);
        if next.Err? {
          state := Some(s);
          return Err(next.error);
        }
        s := next.value;
        if s.clock.modelIsFinished {
          state := Some(s);
          hasModelExecuted, hasModelFinished := true, true;
          return Ok(true);
        }
        i := i + 1;
      }
      state := Some(s);
      hasModelExecuted, hasModelFinished := true, false;
      return Ok(true);
    }

    /**
     * run_model. With till_termination the controller (if any) and a time
     * step alternate until the clock reports the model finished, and the
     * model is then executed and finished. Otherwise num_steps below 1 is
     * refused (before the model is checked to be initialised), and up to
     * num_steps steps run: an early finish returns at once with both flags
     * set, else the model is executed but not finished. A successful call
     * answers True. With initialize_model the run starts from what the
     * simulation's initialisation returns, over its clipped weather table.
     */
    method RunModel(engine: Engine<Sim>, numSteps: int, tillTermination: bool, initializeModel: bool,
                    processOutputs: bool, controller: Option<Run<Sim> -> Run<Sim>>)
      returns (r: Result<bool, ModelError>)
      requires Valid()
      requires tillTermination ==> Advances(engine) && KeepsClock(controller)
      modifies this
      ensures Valid()
      ensures r.Ok? ==> r.value && hasModelExecuted
      ensures r.Ok? && tillTermination ==> hasModelFinished && state.Some? && state.value.clock.modelIsFinished
      ensures var s := engine.initialize(old(simStartTime), old(simEndTime), old(weatherDf), old(settings));
              initializeModel ==>
                (s.Err? ==> r == Err(InitializationFailed(s.error)))
                && (s.Ok? && !(s.value.weather.Valid() && HasWeatherColumns(s.value.weather)) ==> r == Err(BadWeatherColumns))
      ensures var s := engine.initialize(old(simStartTime), old(simEndTime), old(weatherDf), old(settings));
              var ready := if initializeModel then s.Ok? && s.value.weather.Valid() && HasWeatherColumns(s.value.weather)
                           else old(state).Some?;
              ready ==>
                var start := if initializeModel then s.value.run else old(state).value;
                weatherDf == (if initializeModel then s.value.weather else old(weatherDf))
                && (tillTermination ==>
                      var t := TillTermination(engine, weatherDf, controller, start, old(stepsAreFinished));
                      (r.Ok? <==> t.Ok?) && (r.Ok? ==> state == Some(t.value)) && (r.Err? ==> r.error == t.error))
                && (!tillTermination && numSteps >= 1 ==>
                      var o := StepsFrom(engine, weatherDf, start, 0, numSteps, processOutputs, old(stepsAreFinished));
                      (r.Ok? <==> o.Ok?)
                      && (r.Ok? ==> state == Some(o.value.run) && hasModelFinished == o.value.finished
                                    && stepsAreFinished == o.value.stepsAreFinished)
                      && (r.Err? ==> r.error == o.error))
                && (!tillTermination && numSteps < 1 ==> r == Err(BadNumSteps) && state == Some(start))
      ensures !tillTermination && numSteps < 1 && !initializeModel ==> r == Err(BadNumSteps) && unchanged(this)
      ensures !initializeModel && old(state).None? && (tillTermination || numSteps >= 1) ==>
                r == Err(NotInitialized) && unchanged(this)
      ensures unchanged(this`simStartTime, this`simEndTime, this`settings)
    {
      if initializeModel {
        var e := Initialize(engine);
        if e.Err? {
          return Err(e.error);
        }
      }
      if !tillTermination && numSteps < 1 {
        return Err(BadNumSteps);
      }
      if state.None? {
        return Err(NotInitialized);
      }
      if tillTermination {
        r := RunTillTermination(engine, controller);
      } else {
        r := RunSteps(engine, numSteps, processOutputs);
      }
    }

    // -------------------------------------------------------------------
    // Result getters

    /** get_simulation_results: raises before a run, False if the run has not finished, else final_stats. */
    function GetSimulationResults(): (r: Result<Option<StatsTable>, ModelError>)
      requires Valid()
      reads this
      ensures r.Err? <==> !hasModelExecuted
      ensures r.Err? ==> r.error == NotRun
      ensures r.Ok? ==> (r.value.None? <==> !hasModelFinished)
      ensures r.Ok? && r.value.Some? ==> r.value.value == state.value.outputs.finalStats
    {
      if hasModelExecuted then
        if hasModelFinished then Ok(Some(state.value.outputs.finalStats)) else Ok(None)
      else Err(NotRun)
    }

    /** get_water_storage. */
    function GetWaterStorage(): (r: Result<TableValue, ModelError>)
      requires Valid()
      reads this
      ensures r.Ok? <==> hasModelExecuted
      ensures r.Ok? ==> r.value == state.value.outputs.waterStorage
      ensures r.Err? ==> r.error == NotRun
    {
      if hasModelExecuted then Ok(state.value.outputs.waterStorage) else Err(NotRun)
    }

    /** get_water_flux. */
    function GetWaterFlux(): (r: Result<TableValue, ModelError>)
      requires Valid()
      reads this
      ensures r.Ok? <==> hasModelExecuted
      ensures r.Ok? ==> r.value == state.value.outputs.waterFlux
      ensures r.Err? ==> r.error == NotRun
    {
      if hasModelExecuted then Ok(state.value.outputs.waterFlux) else Err(NotRun)
    }

    /** get_crop_growth. */
    function GetCropGrowth(): (r: Result<TableValue, ModelError>)
      requires Valid()
      reads this
      ensures r.Ok? <==> hasModelExecuted
      ensures r.Ok? ==> r.value == state.value.outputs.cropGrowth
      ensures r.Err? ==> r.error == NotRun
    {
      if hasModelExecuted then Ok(state.value.outputs.cropGrowth) else Err(NotRun)
    }

    /** get_additional_information, without the execution time: whether the model finished. */
    function GetAdditionalInformation(): (r: Result<bool, ModelError>)
      reads this
      ensures r.Ok? <==> hasModelExecuted
      ensures r.Ok? ==> r.value == hasModelFinished
    {
      if hasModelExecuted then Ok(hasModelFinished) else Err(NotRun)
    }
  }
}
