/** db.py as one object: the SQLite file with its three tables (db.py:10-57) and the
    operations that read and write them. The tables are fields; each operation states the
    new value of every table in terms of the functions of the table modules. */
module Db {
  import opened Common
  import opened Records
  import opened Registry
  import opened DailyPrices
  import opened Snapshots

  class Database {
    /** `stock_basic`, `daily_prices` and `sector_data`. */
    var registry: seq<RegistryEntry>
    var prices: seq<DailyBar>
    var snapshots: seq<Snapshot>

    /** The UNIQUE(ts_code, trade_date) constraint of `daily_prices`. */
    ghost predicate Valid()
      reads this
    {
      UniqueKeys(prices)
    }

    /** `init_db()` on a new file: the three tables, empty. */
    constructor ()
      ensures Valid()
      ensures registry == [] && prices == [] && snapshots == []
    {
      registry, prices, snapshots := [], [], [];
    }

    /** `save_stock_basic(df)` at time `now` (db.py:59-90): an absent or empty frame is refused
        and nothing changes; otherwise `stock_basic` is replaced by the frame. */
    method SaveStockBasic(frame: Option<BasicFrame>, now: int) returns (ok: bool)
      requires Valid()
      modifies this
      ensures Valid()
      ensures ok <==> frame.Some? && frame.value.rows != []
      ensures registry == (if ok then Replaced(frame.value, now) else old(registry))
      ensures prices == old(prices) && snapshots == old(snapshots)
    {
      if frame.None? || frame.value.rows == [] {
        return false;
      }
      registry := Replaced(frame.value, now);
      ok := true;
    }

    /** `get_stock_code_from_db(q)` (db.py:107-151): the exact query, then each LIKE pattern
        in turn, scanning its (at most five) results for a preferred name. */
    method StockCodeFromDb(q: string) returns (code: Option<string>)
      ensures code == CodeLookup(registry, q)
    {
      var exact := ExactCode(registry, q);
      if exact.Some? {
        return exact;
      }
      var p := 0;
      while p < |NamePatterns|
        invariant 0 <= p <= |NamePatterns|
        invariant FuzzyCode(registry, q, NamePatterns[p..]) == FuzzyCode(registry, q, NamePatterns)
      {
        var results := Candidates(registry, q, NamePatterns[p]);
        if results != [] {
          var pick := PickFrom(results, q);
          return Some(pick.tsCode);
        }
        assert NamePatterns[p..][1..] == NamePatterns[p + 1..];
        p := p + 1;
      }
      return None;
    }

    /** The scan of one non-empty result list (db.py:133-148): the first preferred
        candidate, else the first. */
    static method PickFrom(results: seq<RegistryEntry>, q: string) returns (pick: RegistryEntry)
      requires results != []
      ensures pick == PickCandidate(results, q)
    {
      var k := 0;
      while k < |results|
        invariant 0 <= k <= |results|
        invariant forall j :: 0 <= j < k ==> !Preferred(results[j], q)
      {
        if results[k].name == q || StartsWith(results[k].name, q) {
          FirstPreferredIs(results, q, k);
          return results[k];
        }
        k := k + 1;
      }
      FirstPreferredIs(results, q, k);
      pick := results[0];
    }

    /** `save_daily_price(df)` (db.py:153-214). `failAt` is the position of the record whose
        statement raises, if any; the exception rolls the transaction back. On success the
        table is the upsert of the whole batch, `inserted` counts the rows added and
        `updated` the rows overwritten. */
    method SaveDailyPrice(records: Option<seq<DailyBar>>, failAt: Option<nat>)
      returns (ok: bool, inserted: nat, updated: nat)
      requires Valid()
      modifies this
      ensures Valid()
      ensures ok <==> records.Some? && records.value != [] && (failAt.None? || failAt.value >= |records.value|)
      ensures prices == (if ok then UpsertAll(old(prices), records.value) else old(prices))
      ensures ok ==> inserted + updated == |records.value| && inserted == |prices| - |old(prices)|
      ensures registry == old(registry) && snapshots == old(snapshots)
    {
      if records.None? || records.value == [] {
        return false, 0, 0;
      }
      var pending;
      ok, pending, inserted, updated := UpsertBatch(prices, records.value, failAt);
      if ok {
        UpsertAllSpec(prices, records.value);
        prices := pending;
      } else {
        inserted, updated := 0, 0;
      }
    }

    /** The record loop of db.py:169-204 inside the transaction: the table it would commit and
        the two counters, or a failure when the statement for record `failAt` raises. */
    static method UpsertBatch(rows: seq<DailyBar>, batch: seq<DailyBar>, failAt: Option<nat>)
      returns (ok: bool, pending: seq<DailyBar>, inserted: nat, updated: nat)
      ensures ok <==> failAt.None? || failAt.value >= |batch|
      ensures ok ==> pending == UpsertAll(rows, batch)
      ensures ok ==> inserted + updated == |batch| && inserted + |rows| == |pending|
    {
      pending := rows;
      inserted, updated := 0, 0;
      var i := 0;
      while i < |batch|
        invariant 0 <= i <= |batch|
        invariant failAt.None? || failAt.value >= i
        invariant pending == UpsertAll(rows, batch[..i])
        invariant inserted + updated == i && inserted + |rows| == |pending|
      {
        if failAt == Some(i) {
          return false, pending, inserted, updated;
        }
        UpsertAllSnoc(rows, batch, i);
        if FindKey(pending, batch[i].key).Some? {
          updated := updated + 1;
        } else {
          inserted := inserted + 1;
        }
        pending := UpsertOne(pending, batch[i]);
        i := i + 1;
      }
      assert batch[..i] == batch;
      ok := true;
    }

    /** `get_daily_prices(ts_code, start_date, end_date, limit)` (db.py:216-240). */
    function GetDailyPrices(code: string, start: Option<int>, end: Option<int>, limit: Option<int>): (r: seq<DailyBar>)
      reads this
      ensures forall b :: b in r ==> b in prices && InRange(b, code, start, end)
      ensures Valid() ==> StrictlyDescending(r)
      ensures Capped(limit) ==> |r| <= limit.value
      ensures Valid() ==> forall b :: b in prices && InRange(b, code, start, end) ==>
        b in r || (Capped(limit) && |r| == limit.value && b.key.tradeDate < r[|r| - 1].key.tradeDate)
    {
      QueryPricesSound(prices, code, start, end, limit);
      QueryPricesComplete(prices, code, start, end, limit);
      QueryPrices(prices, code, start, end, limit)
    }

    /** `save_sector_data(sector, data)` at time `now` (db.py:246-261): one row appended. */
    method SaveSectorData(sector: string, data: seq<StockRecord>, now: int) returns (ok: bool)
      requires Valid()
      modifies this
      ensures Valid()
      ensures ok
      ensures snapshots == old(snapshots) + [Snapshot(sector, Decoded(data), now)]
      ensures registry == old(registry) && prices == old(prices)
    {
      snapshots := snapshots + [Snapshot(sector, Decoded(data), now)];
      ok := true;
    }

    /** `get_latest_sector_data(sector, max_age_minutes)` at time `now` (db.py:263-299). */
    function GetLatestSectorData(sector: string, now: int, maxAgeMinutes: int): (r: Option<Cached>)
      reads this
      ensures r.None? <==> forall i :: 0 <= i < |snapshots| ==> snapshots[i].sector != sector
      ensures r.Some? ==> OfSector(snapshots, sector) != [] && r == Some(Load(Newest(OfSector(snapshots, sector))))
    {
      LatestNoneIff(snapshots, sector, now, maxAgeMinutes);
      var r := LatestSectorData(snapshots, sector, now, maxAgeMinutes);
      if r.Some? then LatestIsNewest(snapshots, sector, now, maxAgeMinutes); r else r
    }

    /** `is_data_fresh(ts_code)` with the cutoff date already computed (db.py:304-320). */
    function GetIsDataFresh(code: string, cutoff: int): (r: bool)
      reads this
      ensures r <==> exists i :: 0 <= i < |prices| && Recent(prices[i], code, cutoff)
    {
      IsDataFresh(prices, code, cutoff)
    }
  }
}
