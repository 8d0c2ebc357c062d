/**
 * The calendar helpers of the RIA weather-station client: the leap-year
 * rule, adding and removing 29 February in a year of daily records, the
 * date of a day of the year, the per-year grouping of get_means (its leap
 * fill and the dropping of an incomplete last year), and the clipping done
 * when records are turned into an AquaCrop weather table.
 */
module WeatherStations {
  import opened Wrappers
  import opened DateTime
  import opened FinishedOutputs

  /** One daily record of the station: its date text, its day of the year, and its readings. */
  datatype DayRecord = DayRecord(fecha: string, dia: int, readings: seq<real>)

  datatype StationError =
    | EmptyRecords        // the record list is empty (indexing its first entry fails)
    | NoFebruary28        // no record's date contains "02-28"
    | BadDate             // a date does not parse as YYYY-MM-DD
    | MissingReading      // a record lacks one of the readings
    | NoYears             // max() of no years

  // ---------------------------------------------------------------------
  // Leap years

  /** check_if_a_year_is_leap, with its nested tests. */
  function CheckIfAYearIsLeap(year: int): bool
  {
    if year % 4 == 0 then
      if year % 100 == 0 then
        if year % 400 == 0 then true else false
      else true
    else false
  }

  /** The leap test written inline in get_means_from_weather_data. */
  predicate InlineLeap(year: int)
  {
    (year % 4 == 0 && year % 100 != 0) || year % 400 == 0
  }

  /** Both leap tests are the Gregorian rule that the calendar uses. */
  lemma LeapTestsAgree(year: int)
    ensures CheckIfAYearIsLeap(year) == InlineLeap(year) == IsLeapYear(year)
    ensures CheckIfAYearIsLeap(year) <==> year % 4 == 0 && (year % 100 != 0 || year % 400 == 0)
  {
  }

  // ---------------------------------------------------------------------
  // Text helpers

  /** `t in s` for strings: t occurs in s. */
  predicate Occurs(t: string, s: string)
    decreases |s|
  {
    |t| <= |s| && (s[..|t|] == t || Occurs(t, s[1..]))
  }

  /** s.split("-")[0]: the text before the first '-'. */
  function BeforeDash(s: string): (r: string)
    ensures |r| <= |s| && r == s[..|r|]
    ensures '-' !in r
    ensures |r| < |s| ==> s[|r|] == '-'
  {
    if |s| == 0 || s[0] == '-' then [] else [s[0]] + BeforeDash(s[1..])
  }

  /** str(n) for an integer. */
  function IntToString(n: int): string
  {
    if n < 0 then "-" + NatToString(-n) else NatToString(n)
  }

  /** The date text of 29 February of a year written as text. */
  function LeapDayFecha(year: string): string
  {
    year + "-02-29"
  }

  /** The first index whose date contains t. */
  function FirstWith(entries: seq<DayRecord>, t: string): (r: Option<nat>)
    ensures r.Some? ==> r.value < |entries| && Occurs(t, entries[r.value].fecha)
                        && forall j :: 0 <= j < r.value ==> !Occurs(t, entries[j].fecha)
    ensures r.None? ==> forall j :: 0 <= j < |entries| ==> !Occurs(t, entries[j].fecha)
  {
    if |entries| == 0 then None
    else if Occurs(t, entries[0].fecha) then Some(0)
    else
      var rest := FirstWith(entries[1..], t);
      if rest.Some? then Some(rest.value + 1) else None
  }

  // ---------------------------------------------------------------------
  // Adding 29 February

  /** Entries at list index above 59 have their day of the year moved on by one. */
  function ShiftAfterFebruary(entries: seq<DayRecord>): seq<DayRecord>
  {
    seq(|entries|, i requires 0 <= i < |entries| =>
      if i > 59 then entries[i].(dia := entries[i].dia + 1) else entries[i])
  }

  /**
   * create_a_weather_data_with_29_2 on values: a copy of the first record
   * dated "..02-28.." placed right after it, dated 29 February of the year
   * the first record's date starts with and numbered day 60, then every
   * entry past list index 59 moved on by one day.
   */
  function WithLeapDay(entries: seq<DayRecord>): Result<seq<DayRecord>, StationError>
  {
    if |entries| == 0 then Err(EmptyRecords)
    else
      var k := FirstWith(entries, "02-28");
      if k.None? then Err(NoFebruary28)
      else
        var copy := entries[k.value].(fecha := LeapDayFecha(BeforeDash(entries[0].fecha)), dia := 60);
        Ok(ShiftAfterFebruary(entries[..k.value + 1] + [copy] + entries[k.value + 1..]))
  }

  /** The day number an entry at list index i ends with. */
  function ShiftedDia(e: DayRecord, i: nat): int
  {
    if i > 59 then e.dia + 1 else e.dia
  }

  /**
   * Adding 29 February fails only on an empty list or one without 28
   * February; otherwise the list grows by one, the entry right after the
   * first 28 February is its copy dated 29 February, and every other entry
   * keeps its date and readings, its day number moved on when it ends up
   * past list index 59.
   */
  lemma WithLeapDaySpec(entries: seq<DayRecord>)
    ensures var r := WithLeapDay(entries);
            (r.Err? <==> |entries| == 0 || FirstWith(entries, "02-28").None?)
            && (r.Ok? ==>
                  var k := FirstWith(entries, "02-28").value;
                  var s := r.value;
                  |s| == |entries| + 1
                  && s[k + 1].fecha == LeapDayFecha(BeforeDash(entries[0].fecha))
                  && s[k + 1].readings == entries[k].readings
                  && s[k + 1].dia == ShiftedDia(DayRecord("", 60, []), k + 1)
                  && (forall i :: 0 <= i <= k ==> s[i] == entries[i].(dia := ShiftedDia(entries[i], i)))
                  && (forall i :: k < i < |entries| ==> s[i + 1] == entries[i].(dia := ShiftedDia(entries[i], i + 1))))
  {
    if |entries| > 0 && FirstWith(entries, "02-28").Some? {
      var k := FirstWith(entries, "02-28").value;
      var copy := entries[k].(fecha := LeapDayFecha(BeforeDash(entries[0].fecha)), dia := 60);
      InsertedShape(entries, k, copy);
    }
  }

  /** The shape of the list after inserting e right after index k and renumbering. */
  lemma InsertedShape(entries: seq<DayRecord>, k: nat, e: DayRecord)
    requires k < |entries|
    ensures var s := ShiftAfterFebruary(entries[..k + 1] + [e] + entries[k + 1..]);
            |s| == |entries| + 1
            && s[k + 1] == e.(dia := ShiftedDia(e, k + 1))
            && (forall i :: 0 <= i <= k ==> s[i] == entries[i].(dia := ShiftedDia(entries[i], i)))
            && (forall i :: k < i < |entries| ==> s[i + 1] == entries[i].(dia := ShiftedDia(entries[i], i + 1)))
  {
    var inserted := entries[..k + 1] + [e] + entries[k + 1..];
    forall i | 0 <= i <= k
      ensures inserted[i] == entries[i]
    {
    }
    forall i | k < i < |entries|
      ensures inserted[i + 1] == entries[i]
    {
    }
  }

  /** The list whose entries the station client adds 29 February to in place. */
  class DayList {
    var entries: seq<DayRecord>

    constructor(entries: seq<DayRecord>)
      ensures this.entries == entries
    {
      this.entries := entries;
    }

    /** create_a_weather_data_with_29_2: the insertion, then the loop that renumbers later entries. */
    method CreateAWeatherDataWith29Of2() returns (r: Result<(), StationError>)
      modifies this
      ensures var w := WithLeapDay(old(entries));
              (r.Ok? <==> w.Ok?) && (w.Ok? ==> entries == w.value)
              && (w.Err? ==> r.error == w.error && entries == old(entries))
    {
      if |entries| == 0 {
        return Err(EmptyRecords);
      }
      var year := BeforeDash(entries[0].fecha);
      var k := FirstWith(entries, "02-28");
      if k.None? {
        return Err(NoFebruary28);
      }
      var copy := entries[k.value].(fecha := LeapDayFecha(year), dia := 60);
      entries := entries[..k.value + 1] + [copy] + entries[k.value + 1..];
      ghost var inserted := entries;
      var index := 0;
      while index < |entries|
        invariant 0 <= index <= |entries| == |inserted|
        invariant forall j :: 0 <= j < index ==> entries[j] == ShiftAfterFebruary(inserted)[j]
        invariant forall j :: index <= j < |entries| ==> entries[j] == inserted[j]
      {
        if index > 59 {
          entries := entries[index := entries[index].(dia := entries[index].dia + 1)];
        }
        index := index + 1;
      }
      assert entries == ShiftAfterFebruary(inserted);
      return Ok(());
    }
  }

  // ---------------------------------------------------------------------
  // Removing 29 February

  /** The entries not dated t, in order. */
  function Without(entries: seq<DayRecord>, t: string): (r: seq<DayRecord>)
    ensures |r| <= |entries|
  {
    if |entries| == 0 then []
    else (if entries[0].fecha == t then [] else [entries[0]]) + Without(entries[1..], t)
  }

  /** remove_29_2_from_weather_data: drop the entries dated 29 February of the year before day_date's. */
  function RemoveLeapDay(entries: seq<DayRecord>, dayDateYear: int): seq<DayRecord>
  {
    Without(entries, LeapDayFecha(IntToString(dayDateYear - 1)))
  }

  /** Removal keeps exactly the entries with another date (in order, by WithoutAppend). */
  lemma {:induction false} WithoutSpec(entries: seq<DayRecord>, t: string)
    ensures forall e :: e in Without(entries, t) <==> e in entries && e.fecha != t
  {
    if |entries| > 0 {
      WithoutSpec(entries[1..], t);
      assert entries == [entries[0]] + entries[1..];
    }
  }

  lemma {:induction false} WithoutAppend(a: seq<DayRecord>, b: seq<DayRecord>, t: string)
    ensures Without(a + b, t) == Without(a, t) + Without(b, t)
  {
    if |a| > 0 {
      WithoutAppend(a[1..], b, t);
      assert (a + b)[0] == a[0];
      assert (a + b)[1..] == a[1..] + b;
    } else {
      assert a + b == b;
    }
  }

  /**
   * Removing the added day undoes the addition except for the renumbering:
   * when the first record's date starts with the year before day_date's and
   * no record is already dated 29 February of it, adding then removing 29
   * February gives back every record's date and readings in place.
   */
  lemma RemoveUndoesAdd(entries: seq<DayRecord>, dayDateYear: int)
    requires WithLeapDay(entries).Ok?
    requires BeforeDash(entries[0].fecha) == IntToString(dayDateYear - 1)
    requires forall i :: 0 <= i < |entries| ==> entries[i].fecha != LeapDayFecha(IntToString(dayDateYear - 1))
    ensures var back := RemoveLeapDay(WithLeapDay(entries).value, dayDateYear);
            |back| == |entries|
            && forall i :: 0 <= i < |entries| ==> back[i].fecha == entries[i].fecha && back[i].readings == entries[i].readings
  {
    var t := LeapDayFecha(IntToString(dayDateYear - 1));
    var k := FirstWith(entries, "02-28").value;
    var copy := entries[k].(fecha := LeapDayFecha(BeforeDash(entries[0].fecha)), dia := 60);
    var inserted := entries[..k + 1] + [copy] + entries[k + 1..];
    assert WithLeapDay(entries).value == ShiftAfterFebruary(inserted);
    WithoutSplit(entries[..k + 1], copy, entries[k + 1..], t);
    assert entries[..k + 1] + entries[k + 1..] == entries;
    WithoutSame(ShiftAfterFebruary(inserted), inserted, t);
  }

  /** Two lists that agree on every entry's date and readings. */
  predicate SameRecords(a: seq<DayRecord>, b: seq<DayRecord>)
  {
    |a| == |b| && forall i :: 0 <= i < |a| ==> a[i].fecha == b[i].fecha && a[i].readings == b[i].readings
  }

  /** Removal looks only at dates, so lists agreeing on dates and readings still agree after it. */
  lemma {:induction false} WithoutSame(a: seq<DayRecord>, b: seq<DayRecord>, t: string)
    requires SameRecords(a, b)
    ensures SameRecords(Without(a, t), Without(b, t))
  {
    if |a| > 0 {
      WithoutSame(a[1..], b[1..], t);
      assert a[0].fecha == b[0].fecha;
    }
  }

  /** Removal leaves a list with no entry dated t alone. */
  lemma {:induction false} WithoutNone(s: seq<DayRecord>, t: string)
    requires forall i :: 0 <= i < |s| ==> s[i].fecha != t
    ensures Without(s, t) == s
  {
    if |s| > 0 {
      WithoutNone(s[1..], t);
      assert s == [s[0]] + s[1..];
    }
  }

  /** Removing the one entry dated t from the middle of a list leaves the two sides. */
  lemma WithoutSplit(before: seq<DayRecord>, e: DayRecord, after: seq<DayRecord>, t: string)
    requires e.fecha == t
    requires forall i :: 0 <= i < |before| ==> before[i].fecha != t
    requires forall i :: 0 <= i < |after| ==> after[i].fecha != t
    ensures Without(before + [e] + after, t) == before + after
  {
    WithoutAppend(before + [e], after, t);
    WithoutAppend(before, [e], t);
    WithoutNone(before, t);
    WithoutNone(after, t);
    assert Without([e], t) == [];
  }

  // ---------------------------------------------------------------------
  // Day of the year to date

  function YearDays(y: int): int
  {
    if IsLeapYear(y) then 366 else 365
  }

  lemma DaysBeforeDecember(y: int)
    ensures DaysBeforeMonth(y, 12) + 31 == YearDays(y)
  {
    var feb := DaysInMonth(y, 2);
    assert DaysBeforeMonth(y, 2) == 31;
    assert DaysBeforeMonth(y, 3) == 31 + feb;
    assert DaysBeforeMonth(y, 4) == 62 + feb;
    assert DaysBeforeMonth(y, 5) == 92 + feb;
    assert DaysBeforeMonth(y, 6) == 123 + feb;
    assert DaysBeforeMonth(y, 7) == 153 + feb;
    assert DaysBeforeMonth(y, 8) == 184 + feb;
    assert DaysBeforeMonth(y, 9) == 215 + feb;
    assert DaysBeforeMonth(y, 10) == 245 + feb;
    assert DaysBeforeMonth(y, 11) == 276 + feb;
  }

  /** The date k days after 1 January of y, within year y. */
  function DateInYear(y: int, m: int, k: int): (r: Date)
    requires 1 <= m <= 12 && 0 <= k && DaysBeforeMonth(y, m) + k < YearDays(y)
    ensures r.year == y && m <= r.month <= 12 && 1 <= r.day <= DaysInMonth(y, r.month)
    ensures DaysBeforeMonth(y, r.month) + r.day - 1 == DaysBeforeMonth(y, m) + k
    decreases 12 - m
  {
    DaysBeforeDecember(y);
    if k < DaysInMonth(y, m) then Date(y, m, k + 1)
    else DateInYear(y, m + 1, k - DaysInMonth(y, m))
  }

  /** January 1 of y plus k days (k of any sign); None when the date leaves years 1 to 9999. */
  function DateAfter(y: int, k: int): Option<Date>
    requires MinYear <= y <= MaxYear
    decreases if k < 0 then 367 - k else k
  {
    if k < 0 then
      if y == MinYear then None else DateAfter(y - 1, k + YearDays(y - 1))
    else if k >= YearDays(y) then
      if y == MaxYear then None else DateAfter(y + 1, k - YearDays(y))
    else Some(DateInYear(y, 1, k))
  }

  /** get_date_using_julian_day: 1 January of 2020 (leap) or 2019, plus the day of the year less one. */
  function GetDateUsingJulianDay(dayOfTheYear: int, isYearLeap: bool): Option<Date>
  {
    DateAfter(if isYearLeap then 2020 else 2019, dayOfTheYear - 1)
  }

  lemma OrdinalInYear(y: int, k: int)
    requires MinYear <= y <= MaxYear && 0 <= k < YearDays(y)
    ensures ValidDate(DateInYear(y, 1, k)) && Ordinal(DateInYear(y, 1, k)) == Ordinal(Date(y, 1, 1)) + k
  {
  }

  /** Adding days is ordinal arithmetic: the date found is k days after 1 January of y. */
  lemma {:induction false} DateAfterOrdinal(y: int, k: int)
    requires MinYear <= y <= MaxYear
    ensures var r := DateAfter(y, k);
            r.Some? ==> ValidDate(r.value) && Ordinal(r.value) == Ordinal(Date(y, 1, 1)) + k
    decreases if k < 0 then 367 - k else k
  {
    if k < 0 {
      if y > MinYear {
        DateAfterOrdinal(y - 1, k + YearDays(y - 1));
        OrdinalOfNextYear(y - 1);
      }
    } else if k >= YearDays(y) {
      if y < MaxYear {
        DateAfterOrdinal(y + 1, k - YearDays(y));
        OrdinalOfNextYear(y);
      }
    } else {
      OrdinalInYear(y, k);
    }
  }

  /**
   * For a day of the year d from 1 to 366 the answer is the date d - 1
   * days after 1 January of the base year; day 60 is 29 February in the
   * leap base year and 1 March in the other.
   */
  lemma JulianDaySpec(d: int, isYearLeap: bool)
    requires 1 <= d <= 366
    ensures var r := GetDateUsingJulianDay(d, isYearLeap);
            var base := if isYearLeap then 2020 else 2019;
            r.Some? && ValidDate(r.value) && Ordinal(r.value) == Ordinal(Date(base, 1, 1)) + d - 1
    ensures GetDateUsingJulianDay(60, true) == Some(Date(2020, 2, 29))
    ensures GetDateUsingJulianDay(60, false) == Some(Date(2019, 3, 1))
  {
    var base := if isYearLeap then 2020 else 2019;
    DateAfterOrdinal(base, d - 1);
    if d - 1 >= YearDays(base) {
      assert DateAfter(base + 1, d - 1 - YearDays(base)).Some?;
    }
  }

  // ---------------------------------------------------------------------
  // get_means_from_weather_data: readings grouped by year

  /** The readings each record carries: humedadMedia, humedadMax, humedadMin, velViento, dirViento, velVientoMax, dirVientoVelMax, radiacion, precipitacion, et0. */
  const FieldCount := 10

  /** The list index 29 February takes in a leap year. */
  const LeapDayIndex := 59

  /** A record reduced to what the grouping uses: the year of its date and its readings. */
  datatype Dated = Dated(year: int, readings: seq<real>)

  /** One year's entry: its leap flag, its day count, and its readings day by day (one row per day, one column per field list). */
  datatype YearData = YearData(leapYear: bool, numDays: nat, rows: seq<seq<real>>)

  predicate NoRepeats(s: seq<int>)
  {
    forall i, j :: 0 <= i < j < |s| ==> s[i] != s[j]
  }

  /** The per-year dictionary: the years in insertion order and their entries. */
  datatype ByYear = ByYear(years: seq<int>, data: map<int, YearData>)
  {
    predicate Valid()
    {
      (forall y :: y in data ==> y in years) && (forall y :: y in years ==> y in data) && NoRepeats(years)
    }
  }

  /** The year of a record's date, when it parses as YYYY-MM-DD. */
  function YearOf(fecha: string): Option<int>
  {
    var d := Strptime(fecha, '-');
    if d.Some? then Some(d.value.year) else None
  }

  /** Reading one record: its date parsed (or BadDate), then its readings looked up (or MissingReading). */
  function ReadDay(day: DayRecord): Result<Dated, StationError>
  {
    var year := YearOf(day.fecha);
    if year.None? then Err(BadDate)
    else if |day.readings| != FieldCount then Err(MissingReading)
    else Ok(Dated(year.value, day.readings))
  }

  /** The records read in order; the first failure is raised. */
  function ReadDays(days: seq<DayRecord>): Result<seq<Dated>, StationError>
    decreases |days|
  {
    if |days| == 0 then Ok([])
    else
      var prev := ReadDays(days[..|days| - 1]);
      var last := ReadDay(days[|days| - 1]);
      if prev.Err? then prev
      else if last.Err? then Err(last.error)
      else Ok(prev.value + [last.value])
  }

  /** Every record's date parses and every record has all its readings. */
  predicate Readable(days: seq<DayRecord>)
  {
    forall i :: 0 <= i < |days| ==> ReadDay(days[i]).Ok?
  }

  /** Reading succeeds exactly on readable records, and then reads each one. */
  lemma {:induction false} ReadDaysSpec(days: seq<DayRecord>)
    ensures ReadDays(days).Ok? <==> Readable(days)
    ensures ReadDays(days).Ok? ==>
              |ReadDays(days).value| == |days|
              && forall i :: 0 <= i < |days| ==> ReadDays(days).value[i] == ReadDay(days[i]).value
    decreases |days|
  {
    if |days| > 0 {
      var init := days[..|days| - 1];
      ReadDaysSpec(init);
      var prev, last := ReadDays(init), ReadDay(days[|days| - 1]);
      assert ReadDays(days) == if prev.Err? then prev else if last.Err? then Err(last.error) else Ok(prev.value + [last.value]);
      ReadableSplit(days);
    }
  }

  lemma ReadableSplit(days: seq<DayRecord>)
    requires |days| > 0
    ensures Readable(days) <==> Readable(days[..|days| - 1]) && ReadDay(days[|days| - 1]).Ok?
  {
    var init := days[..|days| - 1];
    assert forall i :: 0 <= i < |init| ==> init[i] == days[i];
  }

  /** One record appended to its year, the year created (with its leap flag) on first sight. */
  function AddDay(g: ByYear, d: Dated): ByYear
  {
    if d.year in g.data then ByYear(g.years, g.data[d.year := g.data[d.year].(rows := g.data[d.year].rows + [d.readings])])
    else ByYear(g.years + [d.year], g.data[d.year := YearData(InlineLeap(d.year), 0, [d.readings])])
  }

  /** The grouping loop over read records, in order. */
  function Group(ds: seq<Dated>): ByYear
    decreases |ds|
  {
    if |ds| == 0 then ByYear([], map[]) else AddDay(Group(ds[..|ds| - 1]), ds[|ds| - 1])
  }

  /** The readings of the records of year y, in order. */
  function RowsOf(ds: seq<Dated>, y: int): seq<seq<real>>
    decreases |ds|
  {
    if |ds| == 0 then []
    else RowsOf(ds[..|ds| - 1], y) + (if ds[|ds| - 1].year == y then [ds[|ds| - 1].readings] else [])
  }

  /**
   * Each year that occurs has an entry, with its leap flag by the calendar
   * rule, a day count still 0, and as rows the readings of its records in
   * order; no other year has one.
   */
  lemma GroupSpec(ds: seq<Dated>)
    ensures var g := Group(ds);
            g.Valid()
            && (forall y :: y in g.data <==> RowsOf(ds, y) != [])
            && forall y :: y in g.data ==>
                 g.data[y].rows == RowsOf(ds, y) && g.data[y].numDays == 0 && g.data[y].leapYear == CheckIfAYearIsLeap(y)
  {
    GroupKeys(ds);
    GroupEntries(ds);
  }

  lemma {:induction false} GroupKeys(ds: seq<Dated>)
    ensures Group(ds).Valid() && forall y :: y in Group(ds).data <==> RowsOf(ds, y) != []
    decreases |ds|
  {
    if |ds| > 0 {
      var init, d := ds[..|ds| - 1], ds[|ds| - 1];
      GroupKeys(init);
      AddDaySpec(Group(init), d);
    }
  }

  lemma {:induction false} GroupEntries(ds: seq<Dated>)
    ensures forall y :: y in Group(ds).data ==>
              Group(ds).data[y] == YearData(CheckIfAYearIsLeap(y), 0, RowsOf(ds, y))
    decreases |ds|
  {
    if |ds| > 0 {
      var init, d := ds[..|ds| - 1], ds[|ds| - 1];
      GroupKeys(init);
      GroupEntries(init);
      AddDaySpec(Group(init), d);
      forall y | y in Group(ds).data
        ensures Group(ds).data[y] == YearData(CheckIfAYearIsLeap(y), 0, RowsOf(ds, y))
      {
        assert RowsOf(ds, y) == RowsOf(init, y) + (if d.year == y then [d.readings] else []);
        if y == d.year && d.year !in Group(init).data {
          assert RowsOf(init, y) == [];
        }
      }
    }
  }

  /** Adding a record appends its readings to its year and leaves the other years alone. */
  lemma AddDaySpec(g: ByYear, d: Dated)
    requires g.Valid()
    ensures var r := AddDay(g, d);
            r.Valid()
            && (forall y :: y in r.data <==> y in g.data || y == d.year)
            && (forall y :: y in r.data && y != d.year ==> r.data[y] == g.data[y])
            && (d.year in g.data ==> r.data[d.year] == g.data[d.year].(rows := g.data[d.year].rows + [d.readings]))
            && (d.year !in g.data ==> r.data[d.year] == YearData(InlineLeap(d.year), 0, [d.readings]))
  {
    if d.year !in g.data {
      var ys := g.years + [d.year];
      forall i, j | 0 <= i < j < |ys|
        ensures ys[i] != ys[j]
      {
        if j == |ys| - 1 {
          assert ys[i] == g.years[i];
        }
      }
    }
  }

  /** The largest of a non-empty list of years. */
  function MaxOf(s: seq<int>): (m: int)
    requires |s| > 0
    ensures m in s && forall x :: x in s ==> x <= m
  {
    if |s| == 1 then s[0]
    else
      var rest := MaxOf(s[1..]);
      assert forall x :: x in s ==> x == s[0] || x in s[1..];
      if s[0] >= rest then s[0] else rest
  }

  /** The list without y. */
  function Omit(s: seq<int>, y: int): (r: seq<int>)
    ensures forall x :: x in r <==> x in s && x != y
  {
    if |s| == 0 then []
    else
      var rest := Omit(s[1..], y);
      assert forall x :: x in s <==> x == s[0] || x in s[1..];
      if s[0] == y then rest else [s[0]] + rest
  }

  lemma {:induction false} OmitNoRepeats(s: seq<int>, y: int)
    requires NoRepeats(s)
    ensures NoRepeats(Omit(s, y))
  {
    if |s| > 0 {
      OmitNoRepeats(s[1..], y);
      assert s[0] !in s[1..];
    }
  }

  /** The last (largest) year is deleted when it has fewer than 365 days. */
  function DropTrailingYear(g: ByYear): (r: ByYear)
    requires g.Valid() && |g.years| > 0
    ensures r.Valid()
    ensures var last := MaxOf(g.years);
            (forall y :: y in r.data <==> y in g.data && (y == last ==> |g.data[last].rows| >= 365))
            && forall y :: y in r.data ==> r.data[y] == g.data[y]
  {
    var last := MaxOf(g.years);
    OmitNoRepeats(g.years, last);
    if |g.data[last].rows| < 365 then ByYear(Omit(g.years, last), g.data - {last}) else g
  }

  /** The element-wise mean of two rows. */
  function MeanRow(a: seq<real>, b: seq<real>): (r: seq<real>)
  {
    seq(if |a| < |b| then |a| else |b|, j requires 0 <= j < |a| && j < |b| => (a[j] + b[j]) / 2.0)
  }

  /** A 365-day year gets, at list index 59, the mean of its entries 58 and 60; other years are left as they are. */
  function FillLeapDay(rows: seq<seq<real>>): seq<seq<real>>
  {
    if |rows| == 365 then rows[..LeapDayIndex] + [MeanRow(rows[LeapDayIndex - 1], rows[LeapDayIndex + 1])] + rows[LeapDayIndex..]
    else rows
  }

  /** A year after the fill: its rows filled and its day count their number. */
  function FillYear(d: YearData): YearData
  {
    YearData(d.leapYear, |FillLeapDay(d.rows)|, FillLeapDay(d.rows))
  }

  /**
   * The fill: a 365-day year becomes 366 days, with days before index 59
   * kept, the entries from index 59 on moved one place later, and at 59 the
   * mean of the entries at 58 and 60 of the 365 days; any other length is
   * left alone; and filling twice is filling once.
   */
  lemma FillLeapDaySpec(rows: seq<seq<real>>)
    ensures var r := FillLeapDay(rows);
            (|rows| == 365 ==>
               |r| == 366 && r[..59] == rows[..59] && r[60..] == rows[59..]
               && (|rows[58]| == |rows[60]| ==>
                     |r[59]| == |rows[58]| && forall j :: 0 <= j < |rows[58]| ==> r[59][j] == (rows[58][j] + rows[60][j]) / 2.0))
            && (|rows| != 365 ==> r == rows)
            && FillLeapDay(r) == r
  {
  }

  lemma FillYearTwice(d: YearData)
    ensures FillYear(FillYear(d)) == FillYear(d)
  {
    FillLeapDaySpec(d.rows);
  }

  /** The leap fill applied to every year of the dictionary. */
  function FillAll(g: ByYear): ByYear
  {
    ByYear(g.years, map y | y in g.data :: FillYear(g.data[y]))
  }

  /** The per-year dictionary get_means builds before averaging: grouped, trailing year dropped, leap day filled. */
  function PreparedYears(days: seq<DayRecord>): Result<ByYear, StationError>
  {
    var ds := ReadDays(days);
    if ds.Err? then Err(ds.error)
    else
      var g := Group(ds.value);
      if |g.years| == 0 || !g.Valid() then Err(NoYears)
      else Ok(FillAll(DropTrailingYear(g)))
  }

  /**
   * What get_means prepares, stated against the read records: it fails
   * exactly when a record is unreadable or there are none; a year is kept
   * exactly when some record falls in it and it is not the last year with
   * fewer than 365 days; and each kept year holds its records' readings in
   * order with the leap day filled, its leap flag by the calendar rule, and
   * its day count.
   */
  lemma PreparedYearsSpec(days: seq<DayRecord>)
    ensures var p := PreparedYears(days);
            (p.Ok? <==> Readable(days) && |days| > 0)
            && (p.Ok? ==>
                  var ds := ReadDays(days).value;
                  p.value.Valid()
                  && (forall y :: y in p.value.data <==> RowsOf(ds, y) != [] && (IsLastYear(ds, y) ==> |RowsOf(ds, y)| >= 365))
                  && forall y :: y in p.value.data ==>
                       p.value.data[y].rows == FillLeapDay(RowsOf(ds, y))
                       && p.value.data[y].leapYear == CheckIfAYearIsLeap(y)
                       && p.value.data[y].numDays == |p.value.data[y].rows|)
  {
    ReadDaysSpec(days);
    if Readable(days) {
      var ds := ReadDays(days).value;
      var g := Group(ds);
      GroupSpec(ds);
      if |days| > 0 {
        var y0 := ds[|ds| - 1].year;
        assert RowsOf(ds, y0) != [];
        assert y0 in g.years;
        var last := MaxOf(g.years);
        forall y | RowsOf(ds, y) != []
          ensures IsLastYear(ds, y) <==> y == last
        {
          assert y in g.years;
          if IsLastYear(ds, y) {
            assert RowsOf(ds, last) != [];
          }
        }
      } else {
        assert g.years == [];
      }
    }
  }

  /** y is the largest year any record falls in. */
  ghost predicate IsLastYear(ds: seq<Dated>, y: int)
  {
    forall x :: RowsOf(ds, x) != [] ==> x <= y
  }

  /** The first loop of get_means_from_weather_data: each record read and appended to its year's lists. */
  method GroupDays(days: seq<DayRecord>) returns (r: Result<ByYear, StationError>)
    ensures var ds := ReadDays(days);
            (r.Ok? <==> ds.Ok?) && (ds.Ok? ==> r.value == Group(ds.value)) && (ds.Err? ==> r.error == ds.error)
  {
    var g := ByYear([], map[]);
    ghost var ds: seq<Dated> := [];
    for i := 0 to |days|
      invariant ReadDays(days[..i]) == Ok(ds) && g == Group(ds)
    {
      var d := ReadDay(days[i]);
      assert days[..i + 1][..i] == days[..i] && days[..i + 1][i] == days[i];
      if d.Err? {
        ReadFailure(days, i);
        return Err(d.error);
      }
      var next := ds + [d.value];
      assert next[..|next| - 1] == ds;
      ds := next;
      g := AddDay(g, d.value);
    }
    assert days[..|days|] == days;
    return Ok(g);
  }

  /** The fill loop of get_means_from_weather_data: every year, in order, gets its day count and its leap fill. */
  method FillLeapDays(g: ByYear) returns (r: ByYear)
    requires g.Valid()
    ensures r == FillAll(g)
  {
    r := g;
    for k := 0 to |g.years|
      invariant r.years == g.years && r.data.Keys == g.data.Keys
      invariant forall y :: y in r.data ==> r.data[y] == if y in g.years[..k] then FillYear(g.data[y]) else g.data[y]
    {
      var y := g.years[k];
      if y in r.data {
        FillYearTwice(g.data[y]);
        r := r.(data := r.data[y := FillYear(r.data[y])]);
      }
      assert g.years[..k + 1] == g.years[..k] + [y];
    }
    assert g.years[..|g.years|] == g.years;
    forall y | y in g.data
      ensures r.data[y] == FillYear(g.data[y])
    {
      assert y in g.years;
    }
    assert r.data == FillAll(g).data;
  }

  /**
   * get_means_from_weather_data up to the averaging: records grouped by
   * year, an incomplete last year deleted, and the leap day inserted into
   * each 365-day year.
   */
  method GetMeansFromWeatherData(days: seq<DayRecord>) returns (r: Result<ByYear, StationError>)
    ensures r == PreparedYears(days)
  {
    var grouped := GroupDays(days);
    if grouped.Err? {
      return Err(grouped.error);
    }
    var g := grouped.value;
    GroupSpec(ReadDays(days).value);
    if |g.years| == 0 {
      return Err(NoYears);
    }
    var filled := FillLeapDays(DropTrailingYear(g));
    return Ok(filled);
  }

  /** A record that cannot be read at position i makes reading all of them fail with its error. */
  lemma {:induction false} ReadFailure(days: seq<DayRecord>, i: nat)
    requires i < |days| && ReadDays(days[..i]).Ok? && ReadDay(days[i]).Err?
    ensures ReadDays(days) == Err(ReadDay(days[i]).error)
    decreases |days|
  {
    if i < |days| - 1 {
      var init := days[..|days| - 1];
      assert init[..i] == days[..i] && init[i] == days[i];
      ReadFailure(init, i);
    } else {
      assert days[..i] == days[..|days| - 1];
    }
  }

  // ---------------------------------------------------------------------
  // Transforming station records into an AquaCrop weather table

  datatype StationRow = StationRow(fecha: string, tempMin: Option<real>, tempMax: Option<real>,
                                   precipitation: Option<real>, et0: Option<real>)

  datatype AquaCropRow = AquaCropRow(fecha: string, minTemp: Option<real>, maxTemp: Option<real>,
                                     precipitation: real, referenceET: Option<real>)

  /** Missing precipitation becomes 0.0; ReferenceET is clipped below at 0.1 (missing stays missing). */
  function TransformRow(row: StationRow): AquaCropRow
  {
    AquaCropRow(row.fecha, row.tempMin, row.tempMax,
                if row.precipitation.Some? then row.precipitation.value else 0.0,
                if row.et0.Some? then Some(if row.et0.value < 0.1 then 0.1 else row.et0.value) else None)
  }

  /** The column fill and clip of transform_data_into_aquacrop_format, row by row. */
  function TransformDataIntoAquacropFormat(rows: seq<StationRow>): (r: seq<AquaCropRow>)
  {
    seq(|rows|, i requires 0 <= i < |rows| => TransformRow(rows[i]))
  }

  /**
   * Every row keeps its date and temperatures; precipitation is the
   * reading or 0.0 when it is missing; a present ReferenceET is at least
   * 0.1 and equals the reading whenever that is at least 0.1.
   */
  lemma TransformSpec(rows: seq<StationRow>)
    ensures var r := TransformDataIntoAquacropFormat(rows);
            |r| == |rows|
            && forall i :: 0 <= i < |rows| ==>
                 r[i].fecha == rows[i].fecha && r[i].minTemp == rows[i].tempMin && r[i].maxTemp == rows[i].tempMax
                 && (rows[i].precipitation.None? ==> r[i].precipitation == 0.0)
                 && (rows[i].precipitation.Some? ==> r[i].precipitation == rows[i].precipitation.value)
                 && (r[i].referenceET.Some? <==> rows[i].et0.Some?)
                 && (r[i].referenceET.Some? ==>
                       r[i].referenceET.value >= 0.1
                       && (rows[i].et0.value >= 0.1 ==> r[i].referenceET.value == rows[i].et0.value))
  {
  }
}
