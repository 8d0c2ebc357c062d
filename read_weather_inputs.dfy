/**
 * read_weather_inputs: check that the weather table covers the simulation
 * period, keep the rows inside it, drop rows whose date repeats an earlier
 * one, insert a row for every missing day, and fill every missing value
 * from the nearest earlier row.
 *
 * Dates are day numbers. A row holds its date and one value per weather
 * column (MinTemp, MaxTemp, Precipitation, ReferenceET), None standing for
 * a missing (NaN) value.
 */
module WeatherInputs {
  import opened Wrappers

  datatype Row = Row(date: int, values: seq<Option<real>>)

  datatype WeatherError =
    | NoWeatherData               // the table has no rows (the first-date lookup fails)
    | FirstDateAfterStart         // the table starts after the simulation start
    | LastDateBeforeEnd           // the table ends before the simulation end

  /** Every row has one value per column. */
  predicate Uniform(rows: seq<Row>, width: nat)
  {
    forall i :: 0 <= i < |rows| ==> |rows[i].values| == width
  }

  // ---------------------------------------------------------------------
  // The transformation steps

  /** The rows dated within [start, end], in their order. */
  function Clip(rows: seq<Row>, start: int, end: int): seq<Row>
  {
    if |rows| == 0 then []
    else (if start <= rows[0].date <= end then [rows[0]] else []) + Clip(rows[1..], start, end)
  }

  /** The rows whose date has not been seen before, in their order. */
  function DedupSeen(rows: seq<Row>, seen: set<int>): seq<Row>
  {
    if |rows| == 0 then []
    else if rows[0].date in seen then DedupSeen(rows[1..], seen)
    else [rows[0]] + DedupSeen(rows[1..], seen + {rows[0].date})
  }

  /** index.duplicated(keep='first') removed: the first row of every date. */
  function Dedup(rows: seq<Row>): seq<Row>
  {
    DedupSeen(rows, {})
  }

  /** The first row dated d, if any. */
  function Lookup(rows: seq<Row>, d: int): Option<Row>
  {
    if |rows| == 0 then None
    else if rows[0].date == d then Some(rows[0])
    else Lookup(rows[1..], d)
  }

  function MinDate(rows: seq<Row>): int
    requires |rows| > 0
  {
    if |rows| == 1 then rows[0].date
    else var m := MinDate(rows[1..]); if rows[0].date < m then rows[0].date else m
  }

  function MaxDate(rows: seq<Row>): int
    requires |rows| > 0
  {
    if |rows| == 1 then rows[0].date
    else var m := MaxDate(rows[1..]); if rows[0].date > m then rows[0].date else m
  }

  /** asfreq('D'): one row per day from lo to hi, an all-missing row where no row has that date. */
  function Reindex(rows: seq<Row>, lo: int, hi: int, width: nat): seq<Row>
    requires lo <= hi
  {
    seq(hi - lo + 1, i =>
      match Lookup(rows, lo + i)
      case Some(r) => r
      case None => Row(lo + i, seq(width, _ => None)))
  }

  /** The value of column c in row i after a forward fill: the latest present value at or above row i. */
  function Filled(rows: seq<Row>, width: nat, i: int, c: int): Option<real>
    requires Uniform(rows, width) && 0 <= i < |rows| && 0 <= c < width
  {
    if rows[i].values[c].Some? then rows[i].values[c]
    else if i == 0 then None
    else Filled(rows, width, i - 1, c)
  }

  /** fillna(method='ffill') over every column. */
  function FFill(rows: seq<Row>, width: nat): seq<Row>
    requires Uniform(rows, width)
  {
    seq(|rows|, i requires 0 <= i < |rows| => Row(rows[i].date, seq(width, c requires 0 <= c < width => Filled(rows, width, i, c))))
  }

  /** The rows dated inside the period, the first of each date only. */
  function Retained(rows: seq<Row>, start: int, end: int): seq<Row>
  {
    Dedup(Clip(rows, start, end))
  }

  /** read_weather_inputs on a table of the given width. */
  function ReadWeatherInputs(rows: seq<Row>, width: nat, start: int, end: int): Result<seq<Row>, WeatherError>
    requires Uniform(rows, width)
  {
    if |rows| == 0 then Err(NoWeatherData)
    else if rows[0].date > start then Err(FirstDateAfterStart)
    else if rows[|rows| - 1].date < end then Err(LastDateBeforeEnd)
    else
      var unique := Retained(rows, start, end);
      if |unique| == 0 then Ok([])
      else
        RetainedSpec(rows, start, end, 0, width);
        ReindexSpec(unique, MinDate(unique), MaxDate(unique), width);
        Ok(FFill(Reindex(unique, MinDate(unique), MaxDate(unique), width), width))
  }

  // ---------------------------------------------------------------------
  // Properties of the steps

  /** Clipping keeps exactly the rows inside the period, and lookups inside it are unaffected. */
  lemma {:induction false} ClipLookup(rows: seq<Row>, start: int, end: int, d: int)
    ensures Lookup(Clip(rows, start, end), d) == if start <= d <= end then Lookup(rows, d) else None
    ensures forall r :: r in Clip(rows, start, end) ==> r in rows && start <= r.date <= end
  {
    if |rows| > 0 {
      ClipLookup(rows[1..], start, end, d);
      var rest := Clip(rows[1..], start, end);
      if start <= rows[0].date <= end {
        assert Clip(rows, start, end) == [rows[0]] + rest;
      } else {
        assert Clip(rows, start, end) == rest;
      }
    }
  }

  lemma {:induction false} ClipUniform(rows: seq<Row>, width: nat, start: int, end: int)
    requires Uniform(rows, width)
    ensures Uniform(Clip(rows, start, end), width)
  {
    if |rows| > 0 {
      ClipUniform(rows[1..], width, start, end);
      ClipLookup(rows, start, end, 0);
    }
  }

  /** A lookup finds a row with the date asked for, and the first one; none only if no row has it. */
  lemma {:induction false} LookupSpec(rows: seq<Row>, d: int)
    ensures match Lookup(rows, d)
            case Some(r) => exists k :: 0 <= k < |rows| && rows[k] == r && r.date == d
                              && forall j :: 0 <= j < k ==> rows[j].date != d
            case None => forall j :: 0 <= j < |rows| ==> rows[j].date != d
  {
    if |rows| > 0 && rows[0].date != d {
      LookupSpec(rows[1..], d);
      match Lookup(rows[1..], d)
      case Some(r) =>
        var k :| 0 <= k < |rows| - 1 && rows[1..][k] == r && r.date == d
                 && forall j :: 0 <= j < k ==> rows[1..][j].date != d;
        assert rows[k + 1] == r;
        assert forall j :: 0 <= j < k + 1 ==> rows[j].date != d by {
          forall j | 0 < j < k + 1 ensures rows[j].date != d {
            assert rows[j] == rows[1..][j - 1];
          }
        }
      case None =>
    }
  }

  /**
   * Removing later duplicates keeps the first row of every date: a lookup
   * on the result gives the same row, dates no longer repeat, and only
   * rows of the input remain.
   */
  lemma {:induction false} DedupSeenLookup(rows: seq<Row>, seen: set<int>, d: int)
    ensures Lookup(DedupSeen(rows, seen), d) == if d in seen then None else Lookup(rows, d)
    ensures forall r :: r in DedupSeen(rows, seen) ==> r in rows && r.date !in seen
  {
    if |rows| > 0 {
      var r0 := rows[0];
      if r0.date in seen {
        DedupSeenLookup(rows[1..], seen, d);
      } else {
        DedupSeenLookup(rows[1..], seen + {r0.date}, d);
      }
    }
  }

  /** No two rows share a date. */
  predicate DistinctDates(rows: seq<Row>)
  {
    forall i, j :: 0 <= i < j < |rows| ==> rows[i].date != rows[j].date
  }

  lemma {:induction false} DedupSeenDistinct(rows: seq<Row>, seen: set<int>)
    ensures DistinctDates(DedupSeen(rows, seen))
  {
    if |rows| > 0 {
      var r0 := rows[0];
      if r0.date in seen {
        DedupSeenDistinct(rows[1..], seen);
      } else {
        var rest := DedupSeen(rows[1..], seen + {r0.date});
        DedupSeenDistinct(rows[1..], seen + {r0.date});
        DedupSeenLookup(rows[1..], seen + {r0.date}, r0.date);
        var u := DedupSeen(rows, seen);
        assert u == [r0] + rest;
        forall i, j | 0 <= i < j < |u| ensures u[i].date != u[j].date {
          assert u[j] == rest[j - 1] && rest[j - 1] in rest;
          if i > 0 {
            assert u[i] == rest[i - 1];
          }
        }
      }
    }
  }

  lemma DedupSpec(rows: seq<Row>, d: int)
    ensures Lookup(Dedup(rows), d) == Lookup(rows, d)
    ensures forall r :: r in Dedup(rows) ==> r in rows
    ensures DistinctDates(Dedup(rows))
  {
    DedupSeenLookup(rows, {}, d);
    DedupSeenDistinct(rows, {});
  }

  /**
   * The retained rows are rows of the input inside the period with distinct
   * dates, and for a date inside the period they give the first input row
   * of that date.
   */
  lemma RetainedSpec(rows: seq<Row>, start: int, end: int, d: int, width: nat)
    requires Uniform(rows, width)
    ensures var u := Retained(rows, start, end);
            Lookup(u, d) == (if start <= d <= end then Lookup(rows, d) else None)
            && Uniform(u, width)
            && (forall r :: r in u ==> r in rows && start <= r.date <= end)
            && DistinctDates(u)
  {
    var kept := Clip(rows, start, end);
    ClipLookup(rows, start, end, d);
    DedupSpec(kept, d);
    var u := Dedup(kept);
    forall i | 0 <= i < |u| ensures |u[i].values| == width && start <= u[i].date <= end {
      assert u[i] in kept;
    }
  }

  lemma {:induction false} MinMaxSpec(rows: seq<Row>)
    requires |rows| > 0
    ensures exists k :: 0 <= k < |rows| && rows[k].date == MinDate(rows)
    ensures exists k :: 0 <= k < |rows| && rows[k].date == MaxDate(rows)
    ensures forall j :: 0 <= j < |rows| ==> MinDate(rows) <= rows[j].date <= MaxDate(rows)
  {
    if |rows| > 1 {
      MinMaxSpec(rows[1..]);
      var k1 :| 0 <= k1 < |rows| - 1 && rows[1..][k1].date == MinDate(rows[1..]);
      var k2 :| 0 <= k2 < |rows| - 1 && rows[1..][k2].date == MaxDate(rows[1..]);
      assert rows[k1 + 1].date == MinDate(rows[1..]);
      assert rows[k2 + 1].date == MaxDate(rows[1..]);
      forall j | 0 < j < |rows| ensures MinDate(rows) <= rows[j].date <= MaxDate(rows) {
        assert rows[j] == rows[1..][j - 1];
      }
    } else {
      assert rows[0].date == MinDate(rows);
    }
  }

  /** Reindexing gives one row per consecutive day, each the row of that day when there is one. */
  lemma ReindexSpec(rows: seq<Row>, lo: int, hi: int, width: nat)
    requires lo <= hi
    requires Uniform(rows, width)
    ensures var out := Reindex(rows, lo, hi, width);
            |out| == hi - lo + 1 && Uniform(out, width)
            && forall i :: 0 <= i < |out| ==>
                 out[i].date == lo + i
                 && (Lookup(rows, lo + i).Some? ==> out[i] == Lookup(rows, lo + i).value)
                 && (Lookup(rows, lo + i).None? ==> forall c :: 0 <= c < |out[i].values| ==> out[i].values[c].None?)
  {
    forall i | 0 <= i < hi - lo + 1
      ensures Reindex(rows, lo, hi, width)[i].date == lo + i && |Reindex(rows, lo, hi, width)[i].values| == width
    {
      LookupSpec(rows, lo + i);
    }
  }

  /**
   * The forward fill: a present value stays; a missing one takes the value
   * of the latest earlier row that has one, and stays missing when no
   * earlier row has one.
   */
  lemma {:induction false} FilledSpec(rows: seq<Row>, width: nat, i: int, c: int)
    requires Uniform(rows, width) && 0 <= i < |rows| && 0 <= c < width
    ensures match Filled(rows, width, i, c)
            case Some(v) => exists k :: 0 <= k <= i && rows[k].values[c] == Some(v)
                              && forall j :: k < j <= i ==> rows[j].values[c].None?
            case None => forall j :: 0 <= j <= i ==> rows[j].values[c].None?
    decreases i
  {
    if rows[i].values[c].None? && i > 0 {
      FilledSpec(rows, width, i - 1, c);
    }
  }

  // ---------------------------------------------------------------------
  // Properties of read_weather_inputs

  /** The three errors, each exactly when its condition holds and the earlier ones do not. */
  lemma ReadWeatherInputsErrors(rows: seq<Row>, width: nat, start: int, end: int)
    requires Uniform(rows, width)
    ensures var r := ReadWeatherInputs(rows, width, start, end);
            (r == Err(NoWeatherData) <==> |rows| == 0)
            && (r == Err(FirstDateAfterStart) <==> |rows| > 0 && rows[0].date > start)
            && (r == Err(LastDateBeforeEnd) <==> |rows| > 0 && rows[0].date <= start && rows[|rows| - 1].date < end)
            && (r.Ok? <==> |rows| > 0 && rows[0].date <= start && rows[|rows| - 1].date >= end)
  {
  }

  /**
   * The dates of the result: empty exactly when no row lies in the period;
   * otherwise consecutive days inside the period, from the earliest to the
   * latest date of a row in it.
   */
  lemma ReadWeatherInputsDates(rows: seq<Row>, width: nat, start: int, end: int)
    requires Uniform(rows, width) && ReadWeatherInputs(rows, width, start, end).Ok?
    ensures var out := ReadWeatherInputs(rows, width, start, end).value;
            (|out| == 0 <==> forall j :: 0 <= j < |rows| ==> !(start <= rows[j].date <= end))
            && (forall i :: 0 <= i < |out| ==> out[i].date == out[0].date + i && start <= out[i].date <= end)
            && (|out| > 0 ==>
                  (exists j :: 0 <= j < |rows| && rows[j].date == out[0].date)
                  && (exists j :: 0 <= j < |rows| && rows[j].date == out[|out| - 1].date)
                  && forall j :: 0 <= j < |rows| && start <= rows[j].date <= end ==>
                       out[0].date <= rows[j].date <= out[|out| - 1].date)
  {
    var unique := Retained(rows, start, end);
    RetainedSpec(rows, start, end, 0, width);
    if |unique| == 0 {
      forall j | 0 <= j < |rows| && start <= rows[j].date <= end ensures false {
        RetainedSpec(rows, start, end, rows[j].date, width);
        LookupSpec(rows, rows[j].date);
      }
    } else {
      var lo, hi := MinDate(unique), MaxDate(unique);
      DatesSpan(rows, width, start, end);
      ReindexSpec(unique, lo, hi, width);
      var out := ReadWeatherInputs(rows, width, start, end).value;
      assert out == FFill(Reindex(unique, lo, hi, width), width);
      assert |out| == hi - lo + 1;
      assert forall i :: 0 <= i < |out| ==> out[i].date == lo + i;
    }
  }

  /** The first and last retained days are days of input rows in the period, and span all of them. */
  lemma DatesSpan(rows: seq<Row>, width: nat, start: int, end: int)
    requires Uniform(rows, width) && |Retained(rows, start, end)| > 0
    ensures var u := Retained(rows, start, end);
            var lo, hi := MinDate(u), MaxDate(u);
            start <= lo <= hi <= end
            && (exists j :: 0 <= j < |rows| && rows[j].date == lo)
            && (exists j :: 0 <= j < |rows| && rows[j].date == hi)
            && forall j :: 0 <= j < |rows| && start <= rows[j].date <= end ==> lo <= rows[j].date <= hi
  {
    var u := Retained(rows, start, end);
    RetainedSpec(rows, start, end, 0, width);
    MinMaxSpec(u);
    var k1 :| 0 <= k1 < |u| && u[k1].date == MinDate(u);
    var k2 :| 0 <= k2 < |u| && u[k2].date == MaxDate(u);
    assert u[k1] in u && u[k2] in u;
    forall j | 0 <= j < |rows| && start <= rows[j].date <= end
      ensures MinDate(u) <= rows[j].date <= MaxDate(u)
    {
      var d := rows[j].date;
      LookupSpec(rows, d);
      RetainedSpec(rows, start, end, d, width);
      LookupSpec(u, d);
    }
  }

  /**
   * The values of the result: on a day some row in the period has, a value
   * present in the first such row is kept as it is; a value that is missing
   * there, or on an inserted day, is the one of the day before, or missing
   * on the first day.
   */
  lemma ReadWeatherInputsValues(rows: seq<Row>, width: nat, start: int, end: int, i: int, c: int)
    requires Uniform(rows, width) && ReadWeatherInputs(rows, width, start, end).Ok?
    requires var out := ReadWeatherInputs(rows, width, start, end).value; 0 <= i < |out| && 0 <= c < width
    ensures var out := ReadWeatherInputs(rows, width, start, end).value;
            var first := Lookup(rows, out[i].date);
            var present := first.Some? && c < |first.value.values| && first.value.values[c].Some?;
            |out[i].values| == width
            && (present ==> out[i].values[c] == first.value.values[c])
            && (!present ==> out[i].values[c] == if i == 0 then None else out[i - 1].values[c])
  {
    var unique := Retained(rows, start, end);
    RetainedSpec(rows, start, end, 0, width);
    var lo, hi := MinDate(unique), MaxDate(unique);
    var daily := Reindex(unique, lo, hi, width);
    ReindexSpec(unique, lo, hi, width);
    var out := ReadWeatherInputs(rows, width, start, end).value;
    assert out == FFill(daily, width);
    var d := lo + i;
    DatesSpan(rows, width, start, end);
    RetainedSpec(rows, start, end, d, width);
    assert out[i].date == d;
    assert Lookup(rows, d) == Lookup(unique, d);
  }
}
