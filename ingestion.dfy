/**
 * One ingestion run (`process_and_store_data`): take the newest 60 historical
 * precipitation samples as the baseline, read the day's rainfall from the
 * weather response, compute lta, std, anomaly and spi, label the feature
 * vector [spi, latitude, longitude] with both classifiers, and append one row.
 * Any exception before the insert is caught and printed, and nothing is stored.
 */
module Ingestion {
  import opened Wrappers
  import opened Spi
  import opened Labels
  import opened Store
  import Endpoints

  /** The exceptions the run can meet before its INSERT. */
  datatype IngestError =
    | HistoryUnavailable       // the CSV fetch fails, or it has no 'totalprecip_mm' column
    | MissingCurrentRainfall   // the weather response lacks a key on the path to the first day's total, or has no day
    | EmptySeverityScores      // np.argmax of an empty severity vector

  /** What the run leaves behind: the id of the appended row, or the error it printed. */
  datatype Outcome = Stored(id: nat) | Printed(error: IngestError)

  /** The three `datetime.now()` reads: the formatted timestamp, the year and the month. */
  datatype Clock = Clock(date: string, year: int, month: int)

  /**
   * The daily precipitation totals of the weather response's forecast days
   * (None when a key on the way to them is missing); the run uses the first day's total.
   */
  function CurrentRainfall(forecastDays: Option<seq<real>>): (r: Option<real>)
    ensures r.Some? <==> forecastDays.Some? && |forecastDays.value| > 0
    ensures r.Some? ==> r.value == forecastDays.value[0]
  {
    match forecastDays
    case None => None
    case Some(days) => if |days| == 0 then None else Some(days[0])
  }

  /** The single row of features, spi then latitude then longitude, that both classifiers receive. */
  function Features(spi: Float, latitude: real, longitude: real): (v: seq<Float>)
    ensures |v| == 3 && v[0] == spi
    ensures v[1] == Finite(latitude) && v[2] == Finite(longitude)
  {
    [spi, Finite(latitude), Finite(longitude)]
  }

  /**
   * The record one run inserts, or the exception that stops it. `history` is the
   * precipitation column (None if it cannot be fetched), `std` the value of
   * `np.std` on the baseline window, `occModel` and `sevModel` the classifiers.
   */
  function IngestRecord(
    history: Option<seq<real>>, forecastDays: Option<seq<real>>, std: real,
    latitude: real, longitude: real,
    occModel: seq<Float> -> real, sevModel: seq<Float> -> seq<real>, now: Clock): (r: Result<WeatherRecord, IngestError>)
    ensures history.None? ==> r == Err(HistoryUnavailable)
    ensures history.Some? && CurrentRainfall(forecastDays).None? ==> r == Err(MissingCurrentRainfall)
    ensures r.Ok? ==> history.Some? && CurrentRainfall(forecastDays) == Some(r.value.rainfall)
    ensures r.Ok? ==>
      var rec := r.value;
      var stats := CalculateSpiAndLta(rec.rainfall, TrailingWindow(history.value), std);
      && rec.lta == stats.lta && rec.std == stats.std
      && rec.rainfallAnomaly == stats.rainfallAnomaly && rec.spi == stats.spi
      && rec.droughtOccurrence == OccurrenceLabel(occModel(Features(rec.spi, latitude, longitude)))
      && ArgMax(sevModel(Features(rec.spi, latitude, longitude))) == Some(rec.droughtSeverity)
      && rec.latitude == latitude && rec.longitude == longitude
      && rec.date == now.date && rec.year == now.year && rec.month == now.month
    ensures r.Err? && history.Some? && CurrentRainfall(forecastDays).Some? ==>
      var stats := CalculateSpiAndLta(CurrentRainfall(forecastDays).value, TrailingWindow(history.value), std);
      r == Err(EmptySeverityScores) && |sevModel(Features(stats.spi, latitude, longitude))| == 0
  {
    match history
    case None => Err(HistoryUnavailable)
    case Some(column) =>
      var window := TrailingWindow(column);
      match CurrentRainfall(forecastDays)
      case None => Err(MissingCurrentRainfall)
      case Some(rain) =>
        var stats := CalculateSpiAndLta(rain, window, std);
        var features := Features(stats.spi, latitude, longitude);
        match ArgMax(sevModel(features))
        case None => Err(EmptySeverityScores)
        case Some(severity) =>
          Ok(WeatherRecord(now.date, rain, stats.lta, stats.std, stats.rainfallAnomaly, stats.spi,
                           OccurrenceLabel(occModel(features)), severity,
                           now.month, now.year, latitude, longitude))
  }

  /**
   * `process_and_store_data`: on success exactly one row is appended, holding
   * the record above under the next id; on any exception the table is unchanged.
   */
  method ProcessAndStoreData(
    store: WeatherStore,
    history: Option<seq<real>>, forecastDays: Option<seq<real>>, std: real,
    latitude: real, longitude: real,
    occModel: seq<Float> -> real, sevModel: seq<Float> -> seq<real>, now: Clock) returns (outcome: Outcome)
    requires store.Valid()
    modifies store
    ensures store.Valid()
    ensures match IngestRecord(history, forecastDays, std, latitude, longitude, occModel, sevModel, now)
      case Ok(rec) =>
        outcome == Stored(|old(store.rows)| + 1)
        && store.rows == old(store.rows) + [Row(|old(store.rows)| + 1, rec)]
      case Err(e) =>
        outcome == Printed(e) && store.rows == old(store.rows)
  {
    if history.None? {
      return Printed(HistoryUnavailable);
    }
    var window := TrailingWindow(history.value);
    var current := CurrentRainfall(forecastDays);
    if current.None? {
      return Printed(MissingCurrentRainfall);
    }
    var stats := CalculateSpiAndLta(current.value, window, std);
    var features := Features(stats.spi, latitude, longitude);
    var occurrence := OccurrenceLabel(occModel(features));
    var severity := ArgMax(sevModel(features));
    if severity.None? {
      return Printed(EmptySeverityScores);
    }
    var rec := WeatherRecord(now.date, current.value, stats.lta, stats.std, stats.rainfallAnomaly, stats.spi,
                             occurrence, severity.value, now.month, now.year, latitude, longitude);
    var id := store.Insert(rec);
    return Stored(id);
  }

  // ----- properties of a stored record -----

  /**
   * The stored statistics are those of the newest min(60, n) samples: lta is
   * their mean, the anomaly is rainfall minus lta, and spi times std gives the
   * anomaly back; spi is finite exactly when the baseline is non-empty and std is not 0.
   */
  lemma StoredRecordRelations(
    history: Option<seq<real>>, forecastDays: Option<seq<real>>, std: real,
    latitude: real, longitude: real,
    occModel: seq<Float> -> real, sevModel: seq<Float> -> seq<real>, now: Clock)
    requires IngestRecord(history, forecastDays, std, latitude, longitude, occModel, sevModel, now).Ok?
    ensures
      var rec := IngestRecord(history, forecastDays, std, latitude, longitude, occModel, sevModel, now).value;
      var w := TrailingWindow(history.value);
      && |w| == (if |history.value| < BaselineSize then |history.value| else BaselineSize)
      && (|w| > 0 ==> rec.lta == Finite(Mean(w)) && rec.std == Finite(std)
                      && rec.rainfallAnomaly == Finite(rec.rainfall - Mean(w)))
      && (|w| == 0 ==> rec.lta == NonFinite && rec.rainfallAnomaly == NonFinite && rec.spi == NonFinite)
      && (rec.spi.Finite? <==> |w| > 0 && std != 0.0)
      && (rec.spi.Finite? ==> rec.spi.value * std == rec.rainfallAnomaly.value)
      && 0 <= rec.droughtOccurrence <= 1
  {
    var rec := IngestRecord(history, forecastDays, std, latitude, longitude, occModel, sevModel, now).value;
    var w := TrailingWindow(history.value);
    if |w| > 0 {
      assert Mean(w) * (|w| as real) == Sum(w);
    }
  }

  /**
   * The next forecast after a successful run starts from that run's clock year
   * and month, whatever was stored before.
   */
  lemma ForecastAfterIngestion(
    rows: seq<Row>, rec: WeatherRecord, occ: nat -> real, sev: nat -> seq<real>)
    requires IdsArePositions(rows)
    ensures Endpoints.Forecast(rows + [Row(|rows| + 1, rec)], occ, sev)
         == Endpoints.Steps(rec.year, rec.month, occ, sev, Endpoints.Horizon)
  {
    LatestAfterInsert(rows, rec);
  }
}
