/**
 * The WeatherData table: rows are only ever appended, each gets the next id
 * (1, 2, 3, ...), and "the latest row" is `ORDER BY id DESC LIMIT 1`.
 */
module Store {
  import opened Wrappers
  import opened Spi

  /** The columns one ingestion writes, in the order of its INSERT. */
  datatype WeatherRecord = WeatherRecord(
    date: string,
    rainfall: real,
    lta: Float,
    std: Float,
    rainfallAnomaly: Float,
    spi: Float,
    droughtOccurrence: int,
    droughtSeverity: nat,
    month: int,
    year: int,
    latitude: real,
    longitude: real)

  /** A stored row: the id the table assigned and the record. */
  datatype Row = Row(id: nat, record: WeatherRecord)

  /** Row k (0-based) carries id k + 1, which is how the table numbers appended rows. */
  ghost predicate IdsArePositions(rows: seq<Row>) {
    forall k :: 0 <= k < |rows| ==> rows[k].id == k + 1
  }

  /**
   * `ORDER BY id DESC LIMIT 1`: the row with the highest id, found by a scan
   * that makes no assumption about the order of the rows; None on an empty table.
   */
  function HighestId(rows: seq<Row>): (r: Option<Row>)
    ensures r.None? <==> |rows| == 0
    ensures r.Some? ==> r.value in rows
    ensures r.Some? ==> forall k :: 0 <= k < |rows| ==> rows[k].id <= r.value.id
  {
    if |rows| == 0 then None
    else
      var rest := HighestId(rows[1..]);
      if rest.Some? && rest.value.id > rows[0].id then rest else Some(rows[0])
  }

  /** When ids follow positions, the highest-id row is the last one appended. */
  lemma {:induction false} HighestIdIsLast(rows: seq<Row>)
    requires IdsArePositions(rows) && |rows| > 0
    ensures HighestId(rows) == Some(rows[|rows| - 1])
  {
    var r := HighestId(rows).value;
    var k :| 0 <= k < |rows| && rows[k] == r;
    assert rows[|rows| - 1].id <= r.id;
    assert k == |rows| - 1;
  }

  /** The table as the process sees it through its connection. */
  class WeatherStore {
    var rows: seq<Row>

    ghost predicate Valid()
      reads this
    {
      IdsArePositions(rows)
    }

    /** An empty WeatherData table. */
    constructor ()
      ensures Valid() && rows == []
    {
      rows := [];
    }

    /** The committed insert of one ingestion: appends one row under the next id and returns that id. */
    method Insert(rec: WeatherRecord) returns (id: nat)
      requires Valid()
      modifies this
      ensures Valid()
      ensures id == |old(rows)| + 1
      ensures rows == old(rows) + [Row(id, rec)]
    {
      id := |rows| + 1;
      rows := rows + [Row(id, rec)];
    }

    /** The latest row: the one with the highest id, which is the last one inserted. */
    function Latest(): (r: Option<Row>)
      reads this
      requires Valid()
      ensures r.None? <==> rows == []
      ensures rows != [] ==> r == Some(rows[|rows| - 1])
    {
      assert rows != [] ==> HighestId(rows) == Some(rows[|rows| - 1]) by {
        if rows != [] { HighestIdIsLast(rows); }
      }
      HighestId(rows)
    }
  }

  /** After an insert, the latest row is the one just inserted, whatever its date says. */
  lemma LatestAfterInsert(rows: seq<Row>, rec: WeatherRecord)
    requires IdsArePositions(rows)
    ensures IdsArePositions(rows + [Row(|rows| + 1, rec)])
    ensures HighestId(rows + [Row(|rows| + 1, rec)]) == Some(Row(|rows| + 1, rec))
  {
    HighestIdIsLast(rows + [Row(|rows| + 1, rec)]);
  }
}
