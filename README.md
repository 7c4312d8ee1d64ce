# drought-models in Dafny

A model of the drought-prediction service gumbogail/drought-models, with proofs about it.
The service ingests the day's rainfall for a location. It takes the newest 60 historical
precipitation samples as a baseline and computes from them the long-term average (lta),
the standard deviation (std), the rainfall anomaly and the Standardized Precipitation
Index (spi = anomaly / std). It then labels the feature vector `[spi, latitude, longitude]`
with an occurrence classifier and a severity classifier, and appends one row to the
`WeatherData` table. Two HTTP endpoints read the table:

- `GET /weather_data` returns the latest row.
- `GET /predict_next_three_months` steps 30, 60 and 90 days from the first day of the
  latest row's month, and labels each step.

Modules, one per concern of the program:

- `Wrappers`: `Option` and `Result`.
- `Calendar`: the proleptic Gregorian calendar that Python's `datetime` implements.
  It covers leap years, month lengths, the day ordinal (0001-01-01 is day 1) and
  `AddDays`. `AddDays` moves through the calendar a month at a time and is proved to
  land on the date whose ordinal is the start's plus n. That is how `datetime + timedelta`
  computes.
- `Labels`: `int(p > 0.5)` and `np.argmax`, which returns the first index of the maximum
  and raises on an empty vector.
- `Spi`: the trailing 60-sample window and `calculate_spi_and_lta`. numpy yields nan or inf
  (and raises nothing) for the mean of nothing and for a division by zero. The model calls
  such values `NonFinite`.
- `Store`: the `WeatherData` table as a class holding a sequence of rows. Ids are assigned
  1, 2, 3, ... on insert, and "latest" is `ORDER BY id DESC LIMIT 1`.
- `Endpoints`: the two handlers, each inside its catch-all `try ... except Exception`.
- `Ingestion`: `process_and_store_data`, as a specification function `IngestRecord` and a
  method `ProcessAndStoreData` that appends to the store.

Where the code's behaviour differs from its description, the model follows the code:

- The forecast advances by `timedelta(days=30*i)`, not by calendar months. From
  December 2024 it yields December 2024, January 2025 and March 2025
  (`Endpoints.ForecastFromDecember2024`).
- Both handlers raise their own `HTTPException(404)` inside the `try` block. Their
  `except Exception` turns it into a 500, so an empty table answers 500
  (`Endpoints.GetWeatherData`, `Endpoints.EmptyTableForecastIs500`).
- A zero std does not raise. numpy's division yields inf or nan, and that value is
  stored (`Spi.CalculateSpiAndLta`, `Ingestion.StoredRecordRelations`).

## Model

| member | source | states |
|---|---|---|
| Calendar.DaysInYear | main.py:109 | a year has 365 days, or 366 exactly when it is a Gregorian leap year |
| Calendar.DaysInMonth | main.py:109 | month lengths are 28..31, and 29 only for February of a leap year |
| Calendar.AddDays | main.py:109 | adding n days to a valid date gives a valid date whose ordinal is the start's plus n, never in an earlier year |
| Calendar.DaysBeforeYearStep | main.py:109 | the closed-form count of days before a year grows by that year's length from one year to the next |
| Calendar.DaysBeforeYearMonotone | main.py:109 | every year between two years adds at least 365 days |
| Calendar.DaysBeforeMonthMonotone | main.py:109 | every month between two months adds at least 28 days |
| Calendar.WholeYear | main.py:109 | the twelve months add up to the year's length; October and November start on days 274 and 305, one later in a leap year |
| Calendar.NextMonthOrdinal | main.py:109 | the first of the next month is valid and follows the last day of the month |
| Calendar.OrdinalInYear | main.py:109 | a date's ordinal lies inside its own year |
| Calendar.OrdinalOrder | main.py:109 | the ordinal strictly increases in chronological order |
| Calendar.OrdinalInjective | main.py:109 | distinct valid dates have distinct ordinals |
| Calendar.AddDaysUnique | main.py:109 | AddDays(d, n) is the only valid date with ordinal Ordinal(d) + n, the date `datetime + timedelta` converts back to |
| Calendar.AddDaysAdditive | main.py:109 | adding n days then m days is adding n + m days |
| Calendar.AddDaysMonotone | main.py:109 | adding more days never gives an earlier date |
| Calendar.YearAfterDays | main.py:109-111 | at most 365 days from the first of a month lands in the same year or the next, in the same year exactly when the day number does not pass the year's end |
| Labels.OccurrenceLabel | main.py:122 | the occurrence label is 0 or 1, and 1 exactly when the probability is strictly above 0.5 |
| Labels.OccurrenceMonotone | preprocessing.py:47 | a larger probability never gives a smaller label |
| Labels.FirstMaxUnique | main.py:123 | only one index holds the first maximum |
| Labels.ArgMaxFrom | main.py:123 | the scan that keeps the earliest best index yields the first maximum of the whole vector |
| Labels.ArgMax | main.py:123 | argmax fails exactly on the empty vector; otherwise it returns an index holding the largest score with no earlier index holding one as large |
| Labels.ArgMaxIsFirstMax | preprocessing.py:48 | any first-maximum index is the one argmax returns |
| Spi.TrailingWindow | preprocessing.py:35 | the window is the newest min(60, n) samples, a suffix of the history in order |
| Spi.TrailingWindowSlides | preprocessing.py:35 | one new sample extends the window by that sample and drops the oldest once 60 are held |
| Spi.DeviationsFromMeanCancel | preprocessing.py:23-25 | the deviations of a baseline from its lta sum to zero |
| Spi.MeanOfConstant | preprocessing.py:23 | the lta of a constant baseline is that constant |
| Spi.MeanBounds | preprocessing.py:23 | the lta lies between any lower and upper bound of the samples |
| Spi.CalculateSpiAndLta | preprocessing.py:21-27 | on an empty window every statistic is non-finite; otherwise lta times the window size is the window's sum, anomaly plus lta is the current rainfall, std is the given std, and spi is finite exactly when std is not 0, with spi times std equal to the anomaly |
| Spi.AverageRainfallHasZeroIndex | preprocessing.py:25-26 | rainfall exactly at the long-term average has spi 0 |
| Store.HighestId | main.py:73 | the query returns nothing exactly on an empty table, and otherwise a stored row whose id no other row exceeds |
| Store.HighestIdIsLast | main.py:73 | when ids follow insertion order, the highest-id row is the last one inserted |
| Store.WeatherStore.Insert | preprocessing.py:56-60 | the insert appends exactly one row, under id n + 1, and keeps the ids in insertion order |
| Store.WeatherStore.Latest | main.py:95-96 | the latest row is absent exactly on an empty table, and is otherwise the last row inserted |
| Store.LatestAfterInsert | preprocessing.py:56-60 | after an insert, the latest row is the one just inserted |
| Endpoints.CatchAll | main.py:136-137 | a handler succeeds exactly when its body does; any exception becomes status 500 carrying that exception, so every failure reaches the client as 500 and every success as 200 |
| Endpoints.LatestWeather | main.py:72-86 | the body of /weather_data raises the 404 "No data available" exactly on an empty table, and otherwise returns the last row's date, year, month and labels |
| Endpoints.GetWeatherData | main.py:69-88 | /weather_data answers 500 caused by its own 404 on an empty table, and otherwise the last row's date, year, month and labels |
| Endpoints.FirstOfMonth | main.py:109 | `datetime(year, month, 1)` succeeds exactly for years 1..9999 and months 1..12, and checks the year before the month |
| Endpoints.AddTimedelta | main.py:109 | adding days fails with OverflowError exactly when the result passes year 9999, and otherwise has the start's ordinal plus n |
| Endpoints.ForecastStep | main.py:108-131 | step i succeeds exactly when the start is valid, the target 30*i days on stays within year 9999 and the severity scores are non-empty; it carries the target's year and month and the decoded labels; otherwise it raises, in that order of checks, the year error, the month error, the overflow or the empty-argmax error |
| Endpoints.Steps | main.py:106-132 | the loop's first n steps succeed exactly when each step does; the list then has n entries, entry k being step k + 1 |
| Endpoints.StepsRaiseFirstFailure | main.py:107-123 | when the loop raises, its exception is the one raised by a step j whose earlier steps all succeeded |
| Endpoints.StepsStopAtFirstFailure | main.py:107-137 | once a step raises, that exception is the loop's outcome |
| Endpoints.Forecast | main.py:98-99 | on an empty table the forecast raises the 404 "No historical data available for predictions" |
| Endpoints.PredictNextThreeMonths | main.py:90-137 | the handler's loop returns the three-step forecast of the latest row, or 500 with the first exception raised |
| Endpoints.ForecastEntries | main.py:106-134 | when the success conditions hold, the forecast succeeds with three entries; entry k is the Gregorian date 30(k+1) days after the first of the latest month, with that step's labels |
| Endpoints.ForecastInRange | main.py:109-111 | when the forecast succeeds, every entry has a month in 1..12 and a year equal to the latest year or the next |
| Endpoints.ForecastChronological | main.py:107-111 | when the forecast succeeds, its entries are in chronological order, with possible repeats |
| Endpoints.ForecastFromDecember2024 | main.py:109 | from December 2024 the entries are December 2024, January 2025 and March 2025 |
| Endpoints.StepOverflow | main.py:109 | a 30-, 60- or 90-day step passes year 9999 only from November or December 9999, and the 90-day step then does |
| Endpoints.StepsFailIff | main.py:107-123 | the three steps fail exactly when the start is invalid, the start is November or December 9999, or some severity vector is empty |
| Endpoints.ForecastFailsIff | main.py:94-134 | the forecast fails exactly when the table is empty, the latest year or month is invalid, the latest month is November or December 9999, or some step's severity scores are empty |
| Endpoints.EmptyTableForecastIs500 | main.py:98-137 | on an empty table the forecast endpoint answers 500 caused by its own 404 |
| Endpoints.ForecastReadsOnlyLatestMonth | main.py:95-103 | two tables with the same latest year and month give the same forecast |
| Ingestion.CurrentRainfall | preprocessing.py:38 | the current rainfall is the first forecast day's total, missing exactly when the keys are missing or the day list is empty |
| Ingestion.Features | preprocessing.py:44-45 | both classifiers receive the three features spi, latitude and longitude, in that order |
| Ingestion.IngestRecord | preprocessing.py:29-59 | the run fails first on the historical fetch, then on the current rainfall, then on empty severity scores; a record holds the window statistics, the labels of the shared feature vector, the location and the clock |
| Ingestion.ProcessAndStoreData | preprocessing.py:29-63 | a successful run appends exactly that record under the next id; a failed run prints its exception and leaves the table unchanged |
| Ingestion.StoredRecordRelations | preprocessing.py:35-47 | a stored lta is the mean of the newest min(60, n) samples, the anomaly is rainfall minus lta, spi is finite exactly when the baseline is non-empty and std is not 0, spi times std is the anomaly, and the occurrence label is 0 or 1 |
| Ingestion.ForecastAfterIngestion | main.py:95-109 | after a successful run, the forecast starts from that run's clock year and month, whatever was stored before |

## Left out

- FastAPI routing, the pydantic response models and the JSON encoding are not modelled.
  A response is a `Success` body or an `HttpError` with its status and cause.
- The `detail=str(e)` text of the 500 is not modelled. The response keeps the exception
  itself; only the texts of the handlers' own 404s are kept as strings.
- The SQLite engine, connections, `commit` and the table schema are left out. The table is a sequence of rows in
  memory, and every read and insert succeeds.
- Loading the two TensorFlow models is left out, and so is what they compute. Their outputs
  are parameters: a function from the feature vector for ingestion, and a per-step output for
  the forecast.
- Endpoints.PredictNextThreeMonths: the classifier input `np.random.rand(1, 10)` is left out,
  because it is random. The classifiers' outputs at step i are the parameters `occ(i)` and `sev(i)`.
- Spi.CalculateSpiAndLta: `std` is the value `np.std` gives for the window, supplied as a
  parameter. The model does not relate it to the window's samples, because square roots of
  reals lie outside what the verifier can reason about here.
- Floating-point rounding is not modelled; arithmetic is exact on reals. Every nan or
  infinity is one `NonFinite` value, with no sign and no distinction between the two.
- The network fetches are left out: the historical CSV and the WeatherAPI request, with
  its URL and key. Their results are parameters, `history` and `forecastDays`, and None
  stands for any exception while they are fetched or read.
- The three `datetime.now()` reads are one `Clock` parameter of three independent fields.
  They are not required to agree.
- The module-level side effects of the ingestion file are left out, because they are I/O at
  import time: the example call with fixed coordinates, `fetch_weather_data`'s own catch and
  print, and `check_database`.
- The commented-out extra endpoint and `app.run` are not modelled.
- Exceptions the code does not itself trigger are left out, such as a classifier output of
  the wrong shape or a non-numeric CSV column.
- Endpoints.GetWeatherData: every column is assumed to read back from the table exactly as it was
  written. The severity the ingestion stores is a numpy integer, which Python's sqlite3 binding
  does not convert to a SQL integer; such a column may come back as raw bytes, which the
  response model then refuses, and the endpoint would answer 500. The model does not capture this
  conversion and gives the row's labels instead.
- Calendar.AddDays: it is defined for every year from 1 upward. Only AddTimedelta applies
  the upper bound 9999 that `datetime` enforces.
