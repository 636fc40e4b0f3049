/** The per-stock record dictionary built by the aggregation loop (stock_data.py:346-357, with
    `sector_score` added at 370-371), stored as JSON in a sector snapshot and shaped by app.py. */
module Records {
  import opened Common

  /** One stock of one sector. `highestDate` is a trade date as the integer YYYYMMDD;
      `sectorScore` is `None` while the key is absent from the dictionary. */
  datatype StockRecord = StockRecord(
    name: string,
    code: string,
    latestPrice: real,
    highestPrice: real,
    highestDate: int,
    maxIncrease: real,
    dropPercentage: Option<real>,
    latestVolume: real,
    maxVolume: real,
    volumeRatio: real,
    sectorScore: Option<real>)

  /** One entry of the ordered sector dictionary: sector name and its records. */
  datatype SectorData = SectorData(sector: string, stocks: seq<StockRecord>)

  /** `stock['sector_score'] = score` for every record of a list (stock_data.py:370-371, 448-451). */
  function Stamp(stocks: seq<StockRecord>, score: real): (r: seq<StockRecord>)
    ensures |r| == |stocks|
    ensures forall k :: 0 <= k < |r| ==> r[k] == stocks[k].(sectorScore := Some(score))
  {
    if stocks == [] then []
    else Stamp(stocks[..|stocks| - 1], score) + [stocks[|stocks| - 1].(sectorScore := Some(score))]
  }

  /** Two lists hold the same records except, possibly, for their `sector_score`. */
  predicate SameExceptScore(a: seq<StockRecord>, b: seq<StockRecord>) {
    |a| == |b| && forall k :: 0 <= k < |a| ==> a[k].(sectorScore := None) == b[k].(sectorScore := None)
  }
}
