/**
 * The two read endpoints of the service: GET /weather_data returns the latest
 * row, and GET /predict_next_three_months steps 30, 60 and 90 days forward
 * from the first day of the latest row's month and labels each step with the
 * classifiers' outputs. Both run their whole body inside one
 * `try ... except Exception`, which turns every exception, including the
 * 404 HTTPException they raise themselves, into a 500 response.
 */
module Endpoints {
  import opened Wrappers
  import opened Calendar
  import opened Labels
  import opened Store

  /** The exceptions that can be raised inside the handlers' try blocks. */
  datatype Raised =
    | HttpNotFound(detail: string)   // HTTPException(status_code=404, detail=...)
    | YearOutOfRange(year: int)      // datetime(year, month, 1): ValueError
    | MonthOutOfRange(month: int)    // datetime(year, month, 1): ValueError
    | DateOverflow                   // datetime + timedelta past 9999-12-31: OverflowError
    | EmptyScores                    // np.argmax of an empty score vector: ValueError

  /** What a handler sends: a body, or an HTTP error status with the exception it came from. */
  datatype Response<T> = Success(body: T) | HttpError(status: int, cause: Raised)

  const ServerError: int := 500
  const NoDataDetail: string := "No data available"
  const NoHistoryDetail: string := "No historical data available for predictions"

  /**
   * The handlers' catch-all: any exception raised in the try block, whatever
   * its own status, is re-raised as a 500 whose detail is that exception.
   * Every failure therefore reaches the client as 500 and every success as 200.
   */
  function CatchAll<T>(r: Result<T, Raised>): (resp: Response<T>)
    ensures resp.Success? <==> r.Ok?
    ensures r.Ok? ==> resp.body == r.value
    ensures r.Err? ==> resp.status == ServerError && resp.cause == r.error
    ensures StatusCode(resp) == if r.Ok? then 200 else ServerError
  {
    match r
    case Ok(v) => Success(v)
    case Err(e) => HttpError(ServerError, e)
  }

  /** The HTTP status the client sees. */
  function StatusCode<T>(resp: Response<T>): int {
    match resp
    case Success(_) => 200
    case HttpError(status, _) => status
  }

  // ----- GET /weather_data -----

  /** The response model of /weather_data. */
  datatype WeatherView = WeatherView(date: string, year: int, month: int, droughtOccurrence: int, droughtSeverity: nat)

  function View(rec: WeatherRecord): WeatherView {
    WeatherView(rec.date, rec.year, rec.month, rec.droughtOccurrence, rec.droughtSeverity)
  }

  /** The body of `get_weather_data` inside its try block: the highest-id row, or the handler's 404. */
  function LatestWeather(rows: seq<Row>): (r: Result<WeatherView, Raised>)
    ensures r.Err? <==> rows == []
    ensures r.Err? ==> r.error == HttpNotFound(NoDataDetail)
    ensures rows != [] && IdsArePositions(rows) ==> r == Ok(View(rows[|rows| - 1].record))
  {
    assert rows != [] && IdsArePositions(rows) ==> HighestId(rows) == Some(rows[|rows| - 1]) by {
      if rows != [] && IdsArePositions(rows) { HighestIdIsLast(rows); }
    }
    match HighestId(rows)
    case None => Err(HttpNotFound(NoDataDetail))
    case Some(row) => Ok(View(row.record))
  }

  /**
   * GET /weather_data: the last inserted row's date, year, month and labels;
   * on an empty table a 500 whose cause is the handler's own 404.
   */
  function GetWeatherData(store: WeatherStore): (resp: Response<WeatherView>)
    reads store
    requires store.Valid()
    ensures store.rows == [] ==> resp == HttpError(ServerError, HttpNotFound(NoDataDetail))
    ensures store.rows != [] ==> resp == Success(View(store.rows[|store.rows| - 1].record))
  {
    CatchAll(LatestWeather(store.rows))
  }

  // ----- GET /predict_next_three_months -----

  /** The response model of /predict_next_three_months, one per step. */
  datatype Prediction = Prediction(month: int, year: int, droughtOccurrence: int, droughtSeverity: nat)

  /** `range(1, 4)` steps of `timedelta(days=30*i)`. */
  const Horizon: nat := 3
  const StepDays: nat := 30

  /** `datetime(year, month, 1)`: checks the year, then the month, as `datetime` does. */
  function FirstOfMonth(year: int, month: int): (r: Result<Date, Raised>)
    ensures r.Ok? <==> MinYear <= year <= MaxYear && 1 <= month <= 12
    ensures r.Ok? ==> r.value == Date(year, month, 1) && Representable(r.value)
    ensures r.Err? && (year < MinYear || year > MaxYear) ==> r.error == YearOutOfRange(year)
    ensures r.Err? && MinYear <= year <= MaxYear ==> r.error == MonthOutOfRange(month)
  {
    if year < MinYear || year > MaxYear then Err(YearOutOfRange(year))
    else if month < 1 || month > 12 then Err(MonthOutOfRange(month))
    else Ok(Date(year, month, 1))
  }

  /** `d + timedelta(days=n)`: the date n days on, or OverflowError past year 9999. */
  function AddTimedelta(d: Date, n: nat): (r: Result<Date, Raised>)
    requires Representable(d)
    ensures r.Ok? ==> Representable(r.value) && Ordinal(r.value) == Ordinal(d) + n
    ensures r.Err? <==> AddDays(d, n).year > MaxYear
    ensures r.Err? ==> r.error == DateOverflow
  {
    var e := AddDays(d, n);
    if e.year > MaxYear then Err(DateOverflow) else Ok(e)
  }

  /**
   * Iteration i of the loop: the target month and year, then the two labels
   * from this step's classifier outputs (`occ` the occurrence probability,
   * `sev` the severity scores).
   */
  function ForecastStep(year: int, month: int, i: nat, occ: real, sev: seq<real>): (r: Result<Prediction, Raised>)
    ensures r.Ok? ==> MinYear <= year <= MaxYear && 1 <= month <= 12
    ensures r.Ok? ==>
      var target := AddDays(Date(year, month, 1), StepDays * i);
      && r.value.year == target.year && r.value.month == target.month
      && target.year <= MaxYear
      && r.value.droughtOccurrence == OccurrenceLabel(occ)
      && ArgMax(sev) == Some(r.value.droughtSeverity)
    ensures r.Err? <==>
      || !(MinYear <= year <= MaxYear && 1 <= month <= 12)
      || AddDays(Date(year, month, 1), StepDays * i).year > MaxYear
      || |sev| == 0
    ensures r.Err? ==> r.error == (if !(MinYear <= year <= MaxYear) then YearOutOfRange(year)
                                   else if !(1 <= month <= 12) then MonthOutOfRange(month)
                                   else if AddDays(Date(year, month, 1), StepDays * i).year > MaxYear then DateOverflow
                                   else EmptyScores)
  {
    match FirstOfMonth(year, month)
    case Err(e) => Err(e)
    case Ok(base) =>
      match AddTimedelta(base, StepDays * i)
      case Err(e) => Err(e)
      case Ok(target) =>
        match ArgMax(sev)
        case None => Err(EmptyScores)
        case Some(severity) => Ok(Prediction(target.month, target.year, OccurrenceLabel(occ), severity))
  }

  /** Steps 1..j-1 succeed and step j raises e. */
  ghost predicate FirstFailure(year: int, month: int, occ: nat -> real, sev: nat -> seq<real>, j: nat, e: Raised) {
    && (forall i :: 1 <= i < j ==> ForecastStep(year, month, i, occ(i), sev(i)).Ok?)
    && ForecastStep(year, month, j, occ(j), sev(j)) == Err(e)
  }

  /**
   * Steps 1..n of the loop: the predictions appended so far, or the first
   * exception. `occ(i)` and `sev(i)` are the classifiers' outputs at step i.
   */
  function Steps(year: int, month: int, occ: nat -> real, sev: nat -> seq<real>, n: nat): (r: Result<seq<Prediction>, Raised>)
    ensures r.Ok? ==> |r.value| == n
    ensures r.Ok? ==> forall k :: 0 <= k < n ==> ForecastStep(year, month, k + 1, occ(k + 1), sev(k + 1)) == Ok(r.value[k])
    ensures r.Ok? <==> forall i :: 1 <= i <= n ==> ForecastStep(year, month, i, occ(i), sev(i)).Ok?
  {
    if n == 0 then Ok([])
    else
      match Steps(year, month, occ, sev, n - 1)
      case Err(e) => Err(e)
      case Ok(ps) =>
        match ForecastStep(year, month, n, occ(n), sev(n))
        case Err(e) => Err(e)
        case Ok(p) => Ok(ps + [p])
  }

  /**
   * When the loop raises, its exception is the one the first failing step
   * raises: some step j raises it and every step before j succeeds.
   */
  lemma {:induction false} StepsRaiseFirstFailure(year: int, month: int, occ: nat -> real, sev: nat -> seq<real>, n: nat)
    requires Steps(year, month, occ, sev, n).Err?
    ensures exists j :: 1 <= j <= n && FirstFailure(year, month, occ, sev, j, Steps(year, month, occ, sev, n).error)
  {
    var e := Steps(year, month, occ, sev, n).error;
    if Steps(year, month, occ, sev, n - 1).Err? {
      StepsRaiseFirstFailure(year, month, occ, sev, n - 1);
    } else {
      assert FirstFailure(year, month, occ, sev, n, e);
    }
  }

  /** Once a step has raised, the remaining steps do not run and the exception is the loop's outcome. */
  lemma {:induction false} StepsStopAtFirstFailure(year: int, month: int, occ: nat -> real, sev: nat -> seq<real>, n: nat, total: nat)
    requires n <= total && Steps(year, month, occ, sev, n).Err?
    ensures Steps(year, month, occ, sev, total) == Steps(year, month, occ, sev, n)
    decreases total - n
  {
    if n < total {
      StepsStopAtFirstFailure(year, month, occ, sev, n, total - 1);
      assert Steps(year, month, occ, sev, total) == Steps(year, month, occ, sev, total - 1);
    }
  }

  /** The body of `predict_next_three_months` inside its try block. */
  function Forecast(rows: seq<Row>, occ: nat -> real, sev: nat -> seq<real>): (r: Result<seq<Prediction>, Raised>)
    ensures rows == [] ==> r == Err(HttpNotFound(NoHistoryDetail))
  {
    match HighestId(rows)
    case None => Err(HttpNotFound(NoHistoryDetail))
    case Some(row) => Steps(row.record.year, row.record.month, occ, sev, Horizon)
  }

  /** The forecast of a non-empty table is the loop run from its last row's year and month. */
  lemma ForecastOfLatest(rows: seq<Row>, occ: nat -> real, sev: nat -> seq<real>)
    requires IdsArePositions(rows) && rows != []
    ensures Forecast(rows, occ, sev)
         == Steps(rows[|rows| - 1].record.year, rows[|rows| - 1].record.month, occ, sev, Horizon)
  {
    HighestIdIsLast(rows);
  }

  /**
   * GET /predict_next_three_months. The handler takes no latitude or longitude;
   * it reads only the year and month of the latest row.
   */
  method PredictNextThreeMonths(store: WeatherStore, occ: nat -> real, sev: nat -> seq<real>)
    returns (resp: Response<seq<Prediction>>)
    requires store.Valid()
    ensures resp == CatchAll(Forecast(store.rows, occ, sev))
  {
    var latest := store.Latest();
    if latest.None? {
      return HttpError(ServerError, HttpNotFound(NoHistoryDetail));
    }
    ForecastOfLatest(store.rows, occ, sev);
    var year, month := latest.value.record.year, latest.value.record.month;
    var predictions: seq<Prediction> := [];
    for i := 1 to Horizon + 1
      invariant Steps(year, month, occ, sev, i - 1) == Ok(predictions)
    {
      var step := ForecastStep(year, month, i, occ(i), sev(i));
      if step.Err? {
        StepsStopAtFirstFailure(year, month, occ, sev, i, Horizon);
        return HttpError(ServerError, step.error);
      }
      predictions := predictions + [step.value];
    }
    return Success(predictions);
  }

  // ----- properties of the forecast -----

  /** The year and month reached from the first of (year, month) after d days. */
  function Target(year: int, month: int, d: nat): Date
    requires MinYear <= year && 1 <= month <= 12
  {
    AddDays(Date(year, month, 1), d)
  }

  /**
   * The forecast succeeds exactly under these conditions (ForecastFailsIff): a
   * non-empty table whose latest year and month `datetime` accepts, a latest
   * month before November 9999, and non-empty severity scores at every step.
   */
  ghost predicate CanForecast(rows: seq<Row>, sev: nat -> seq<real>) {
    && rows != []
    && var latest := rows[|rows| - 1].record;
       && MinYear <= latest.year <= MaxYear && 1 <= latest.month <= 12
       && !(latest.year == MaxYear && latest.month >= 11)
       && forall i :: 1 <= i <= Horizon ==> |sev(i)| > 0
  }

  /**
   * Then the forecast has exactly three entries; entry k is the Gregorian date
   * 30 * (k + 1) days after the first of the latest month, and carries the
   * labels decoded from that step's classifier outputs.
   */
  lemma ForecastEntries(rows: seq<Row>, occ: nat -> real, sev: nat -> seq<real>)
    requires IdsArePositions(rows) && CanForecast(rows, sev)
    ensures Forecast(rows, occ, sev).Ok?
    ensures
      var latest := rows[|rows| - 1].record;
      var ps := Forecast(rows, occ, sev).value;
      && |ps| == Horizon
      && forall k :: 0 <= k < Horizon ==>
           && ps[k].year == Target(latest.year, latest.month, StepDays * (k + 1)).year
           && ps[k].month == Target(latest.year, latest.month, StepDays * (k + 1)).month
           && ps[k].droughtOccurrence == OccurrenceLabel(occ(k + 1))
           && ArgMax(sev(k + 1)) == Some(ps[k].droughtSeverity)
  {
    ForecastFailsIff(rows, occ, sev);
    HighestIdIsLast(rows);
    var latest := rows[|rows| - 1].record;
    assert ForecastStep(latest.year, latest.month, 1, occ(1), sev(1)).Ok?;
  }

  /** Every entry has a month in 1..12 and a year equal to the latest year or the one after. */
  lemma ForecastInRange(rows: seq<Row>, occ: nat -> real, sev: nat -> seq<real>)
    requires IdsArePositions(rows) && CanForecast(rows, sev)
    ensures Forecast(rows, occ, sev).Ok?
    ensures
      var latest := rows[|rows| - 1].record;
      var ps := Forecast(rows, occ, sev).value;
      forall k :: 0 <= k < |ps| ==>
        1 <= ps[k].month <= 12 && (ps[k].year == latest.year || ps[k].year == latest.year + 1)
  {
    ForecastEntries(rows, occ, sev);
    var latest := rows[|rows| - 1].record;
    var ps := Forecast(rows, occ, sev).value;
    forall k | 0 <= k < |ps|
      ensures 1 <= ps[k].month <= 12 && (ps[k].year == latest.year || ps[k].year == latest.year + 1)
    {
      YearAfterDays(latest.year, latest.month, StepDays * (k + 1));
    }
  }

  /** (year, month) of a comes no later than that of b. */
  predicate MonthNotAfter(a: Prediction, b: Prediction) {
    a.year < b.year || (a.year == b.year && a.month <= b.month)
  }

  /** The entries are in chronological order; a month may repeat, since 30 days is not a month. */
  lemma ForecastChronological(rows: seq<Row>, occ: nat -> real, sev: nat -> seq<real>)
    requires IdsArePositions(rows) && CanForecast(rows, sev)
    ensures Forecast(rows, occ, sev).Ok?
    ensures
      var ps := Forecast(rows, occ, sev).value;
      forall j, k :: 0 <= j <= k < |ps| ==> MonthNotAfter(ps[j], ps[k])
  {
    ForecastEntries(rows, occ, sev);
    var latest := rows[|rows| - 1].record;
    var base := Date(latest.year, latest.month, 1);
    var ps := Forecast(rows, occ, sev).value;
    forall j, k | 0 <= j <= k < |ps|
      ensures MonthNotAfter(ps[j], ps[k])
    {
      AddDaysMonotone(base, StepDays * (j + 1), StepDays * (k + 1));
    }
  }

  /** Starting from December 2024 the forecast is December 2024, January 2025 and March 2025. */
  lemma ForecastFromDecember2024(rows: seq<Row>, occ: nat -> real, sev: nat -> seq<real>)
    requires IdsArePositions(rows) && rows != []
    requires rows[|rows| - 1].record.year == 2024 && rows[|rows| - 1].record.month == 12
    requires forall i :: 1 <= i <= Horizon ==> |sev(i)| > 0
    ensures Forecast(rows, occ, sev).Ok?
    ensures
      var ps := Forecast(rows, occ, sev).value;
      && |ps| == 3
      && ps[0].year == 2024 && ps[0].month == 12
      && ps[1].year == 2025 && ps[1].month == 1
      && ps[2].year == 2025 && ps[2].month == 3
  {
    HighestIdIsLast(rows);
    var base := Date(2024, 12, 1);
    assert AddDays(base, 30) == Date(2024, 12, 31);
    assert AddDays(base, 60) == Date(2025, 1, 30);
    assert AddDays(base, 90) == Date(2025, 3, 1);
    ForecastEntries(rows, occ, sev);
  }

  /**
   * From the first of a month of a representable year, 30, 60 or 90 days on
   * passes year 9999 only from November or December 9999, and 90 days on does.
   */
  lemma StepOverflow(y: int, m: int, i: nat)
    requires MinYear <= y <= MaxYear && 1 <= m <= 12 && 1 <= i <= Horizon
    ensures Target(y, m, StepDays * i).year > MaxYear ==> y == MaxYear && m >= 11
    ensures y == MaxYear && m >= 11 && i == Horizon ==> Target(y, m, StepDays * i).year > MaxYear
  {
    YearAfterDays(y, m, StepDays * i);
    WholeYear(y);
    if m <= 10 {
      DaysBeforeMonthMonotone(y, m, 10);
    } else {
      DaysBeforeMonthMonotone(y, 11, m);
    }
  }

  /** The loop raises exactly when `datetime` refuses the start, the 90-day target passes 9999, or some severity vector is empty. */
  lemma StepsFailIff(y: int, m: int, occ: nat -> real, sev: nat -> seq<real>, n: nat)
    requires n == Horizon
    ensures Steps(y, m, occ, sev, n).Err? <==>
      || !(MinYear <= y <= MaxYear && 1 <= m <= 12)
      || (y == MaxYear && m >= 11)
      || |sev(1)| == 0 || |sev(2)| == 0 || |sev(3)| == 0
  {
    var s1 := ForecastStep(y, m, 1, occ(1), sev(1));
    var s2 := ForecastStep(y, m, 2, occ(2), sev(2));
    var s3 := ForecastStep(y, m, 3, occ(3), sev(3));
    if s1.Ok? && s2.Ok? && s3.Ok? {
      forall i | 1 <= i <= n ensures ForecastStep(y, m, i, occ(i), sev(i)).Ok? {
        assert i == 1 || i == 2 || i == 3;
      }
    }
    assert Steps(y, m, occ, sev, n).Ok? <==> s1.Ok? && s2.Ok? && s3.Ok?;
    if MinYear <= y <= MaxYear && 1 <= m <= 12 {
      StepOverflow(y, m, 1);
      StepOverflow(y, m, 2);
      StepOverflow(y, m, 3);
    }
  }

  /**
   * The forecast fails exactly when the table is empty, the latest year or month
   * is outside what `datetime` accepts, the 90-day target passes year 9999 (latest
   * month November or December 9999), or some step's severity scores are empty.
   */
  lemma ForecastFailsIff(rows: seq<Row>, occ: nat -> real, sev: nat -> seq<real>)
    requires IdsArePositions(rows)
    ensures Forecast(rows, occ, sev).Err? <==>
      || rows == []
      || var latest := rows[|rows| - 1].record;
         || !(MinYear <= latest.year <= MaxYear && 1 <= latest.month <= 12)
         || (latest.year == MaxYear && latest.month >= 11)
         || exists i :: 1 <= i <= Horizon && |sev(i)| == 0
  {
    if rows != [] {
      HighestIdIsLast(rows);
      var latest := rows[|rows| - 1].record;
      StepsFailIff(latest.year, latest.month, occ, sev, Horizon);
      assert (exists i :: 1 <= i <= Horizon && |sev(i)| == 0) <==>
        |sev(1)| == 0 || |sev(2)| == 0 || |sev(3)| == 0;
    }
  }

  /** On an empty table the forecast endpoint answers 500 with the handler's own 404 as its cause. */
  lemma EmptyTableForecastIs500(store: WeatherStore, occ: nat -> real, sev: nat -> seq<real>)
    requires store.Valid() && store.rows == []
    ensures CatchAll(Forecast(store.rows, occ, sev)) == HttpError(ServerError, HttpNotFound(NoHistoryDetail))
  {
  }

  /**
   * The forecast reads nothing of the table but the latest row's year and month:
   * not its location, date, rainfall or labels, and no older row.
   */
  lemma ForecastReadsOnlyLatestMonth(rows1: seq<Row>, rows2: seq<Row>, occ: nat -> real, sev: nat -> seq<real>)
    requires IdsArePositions(rows1) && IdsArePositions(rows2) && rows1 != [] && rows2 != []
    requires rows1[|rows1| - 1].record.year == rows2[|rows2| - 1].record.year
    requires rows1[|rows1| - 1].record.month == rows2[|rows2| - 1].record.month
    ensures Forecast(rows1, occ, sev) == Forecast(rows2, occ, sev)
  {
    HighestIdIsLast(rows1);
    HighestIdIsLast(rows2);
  }
}
