/** The `daily_prices` table of db.py (schema at db.py:28-44) as a sequence of rows in insertion
    order, with the upsert of `save_daily_price`, the range query of `get_daily_prices` and the
    count of `is_data_fresh`, all as functions of the table's value. */
module DailyPrices {
  import opened Common

  /** The table's unique key `(ts_code, trade_date)` (db.py:42); dates are integers YYYYMMDD. */
  datatype BarKey = BarKey(tsCode: string, tradeDate: int)

  /** Every non-key column of a row. */
  datatype BarValues = BarValues(
    open: real, high: real, low: real, close: real, preClose: real,
    change: real, pctChg: real, vol: real, amount: real)

  datatype DailyBar = DailyBar(key: BarKey, values: BarValues)

  /** The UNIQUE(ts_code, trade_date) constraint. */
  ghost predicate UniqueKeys(rows: seq<DailyBar>) {
    forall i, j :: 0 <= i < j < |rows| ==> rows[i].key != rows[j].key
  }

  // ---------------------------------------------------------------- upsert

  /** `SELECT id ... WHERE ts_code = ? AND trade_date = ?`: the position of the row with key `k`. */
  function FindKey(rows: seq<DailyBar>, k: BarKey): (r: Option<nat>)
    ensures r.Some? ==> r.value < |rows| && rows[r.value].key == k
    ensures r.None? ==> forall j :: 0 <= j < |rows| ==> rows[j].key != k
  {
    if rows == [] then None
    else if rows[|rows| - 1].key == k then Some(|rows| - 1)
    else FindKey(rows[..|rows| - 1], k)
  }

  /** One record of the loop at db.py:169-204: overwrite the row with its key, or append it. */
  function UpsertOne(rows: seq<DailyBar>, rec: DailyBar): seq<DailyBar> {
    match FindKey(rows, rec.key)
    case Some(i) => rows[i := rec]
    case None => rows + [rec]
  }

  /** The table after the whole loop at db.py:169-204 has run over `batch`. */
  function UpsertAll(rows: seq<DailyBar>, batch: seq<DailyBar>): seq<DailyBar> {
    if batch == [] then rows
    else UpsertOne(UpsertAll(rows, batch[..|batch| - 1]), batch[|batch| - 1])
  }

  /** One more record of the batch is one more upsert; it appends a row exactly when its key
      is not in the table yet. */
  lemma UpsertAllSnoc(rows: seq<DailyBar>, batch: seq<DailyBar>, i: nat)
    requires i < |batch|
    ensures UpsertAll(rows, batch[..i + 1]) == UpsertOne(UpsertAll(rows, batch[..i]), batch[i])
    ensures |UpsertOne(UpsertAll(rows, batch[..i]), batch[i])| ==
      |UpsertAll(rows, batch[..i])| + if FindKey(UpsertAll(rows, batch[..i]), batch[i].key).Some? then 0 else 1
  {
    assert batch[..i + 1][..i] == batch[..i];
  }

  /** The values of the last record of `batch` with key `k`, if any record has that key. */
  function LastValues(batch: seq<DailyBar>, k: BarKey): (r: Option<BarValues>)
    ensures r.None? <==> forall j :: 0 <= j < |batch| ==> batch[j].key != k
  {
    if batch == [] then None
    else if batch[|batch| - 1].key == k then Some(batch[|batch| - 1].values)
    else LastValues(batch[..|batch| - 1], k)
  }

  /** What one upserted record does to the table: keys stay unique, old rows keep their
      position and key, the ones with other keys are untouched, and the record's key now has
      exactly the record's values. */
  lemma UpsertOneSpec(rows: seq<DailyBar>, rec: DailyBar)
    requires UniqueKeys(rows)
    ensures var t := UpsertOne(rows, rec);
      && UniqueKeys(t)
      && |rows| <= |t| <= |rows| + 1
      && (forall i :: 0 <= i < |rows| ==> t[i].key == rows[i].key)
      && (forall i :: 0 <= i < |rows| && rows[i].key != rec.key ==> t[i] == rows[i])
      && (forall i :: |rows| <= i < |t| ==> t[i] == rec)
      && (forall i :: 0 <= i < |t| && t[i].key == rec.key ==> t[i] == rec)
      && (exists i :: 0 <= i < |t| && t[i] == rec)
  {
    var t := UpsertOne(rows, rec);
    match FindKey(rows, rec.key)
    case Some(p) =>
      assert t[p] == rec;
    case None =>
      assert t[|rows|] == rec;
  }

  /** `save_daily_price` gives upsert semantics: after the batch, keys are unique, every key of
      the batch is held by a row whose values are those of the batch's last record with that
      key, rows with other keys are unchanged in place, and new rows only carry batch keys. */
  lemma {:induction false} UpsertAllSpec(rows: seq<DailyBar>, batch: seq<DailyBar>)
    requires UniqueKeys(rows)
    ensures var t := UpsertAll(rows, batch);
      && UniqueKeys(t)
      && |rows| <= |t|
      && (forall i :: 0 <= i < |rows| ==> t[i].key == rows[i].key)
      && (forall i :: 0 <= i < |rows| && LastValues(batch, rows[i].key).None? ==> t[i] == rows[i])
      && (forall i :: |rows| <= i < |t| ==> LastValues(batch, t[i].key).Some?)
      && (forall i :: 0 <= i < |t| && LastValues(batch, t[i].key).Some? ==>
            t[i].values == LastValues(batch, t[i].key).value)
      && (forall k :: LastValues(batch, k).Some? ==> exists i :: 0 <= i < |t| && t[i].key == k)
  {
    if batch != [] {
      var pre := batch[..|batch| - 1];
      var rec := batch[|batch| - 1];
      UpsertAllSpec(rows, pre);
      var p := UpsertAll(rows, pre);
      UpsertOneSpec(p, rec);
      var t := UpsertOne(p, rec);
      assert t == UpsertAll(rows, batch);
      forall k | LastValues(batch, k).Some?
        ensures exists i :: 0 <= i < |t| && t[i].key == k
      {
        if k == rec.key {
          var i :| 0 <= i < |t| && t[i] == rec;
        } else {
          assert LastValues(pre, k).Some?;
          var i :| 0 <= i < |p| && p[i].key == k;
          assert t[i].key == k;
        }
      }
    }
  }

  /** Exactly one row holds each key of a saved batch, with that key's last values. */
  lemma UpsertExactlyOne(rows: seq<DailyBar>, batch: seq<DailyBar>, k: BarKey)
    requires UniqueKeys(rows)
    requires LastValues(batch, k).Some?
    ensures var t := UpsertAll(rows, batch);
      exists i :: 0 <= i < |t| && t[i] == DailyBar(k, LastValues(batch, k).value)
                && forall j :: 0 <= j < |t| && t[j].key == k ==> j == i
  {
    UpsertAllSpec(rows, batch);
    var t := UpsertAll(rows, batch);
    var i :| 0 <= i < |t| && t[i].key == k;
    assert t[i] == DailyBar(k, LastValues(batch, k).value);
  }

  /** Saving the same batch twice leaves the table as saving it once. */
  lemma UpsertIdempotent(rows: seq<DailyBar>, batch: seq<DailyBar>)
    requires UniqueKeys(rows)
    ensures UpsertAll(UpsertAll(rows, batch), batch) == UpsertAll(rows, batch)
  {
    var t1 := UpsertAll(rows, batch);
    UpsertAllSpec(rows, batch);
    var t2 := UpsertAll(t1, batch);
    UpsertAllSpec(t1, batch);
    if |t2| > |t1| {
      var k := t2[|t1|].key;
      assert false;
    }
    forall i | 0 <= i < |t1| ensures t2[i] == t1[i] {
      if LastValues(batch, t1[i].key).Some? {
        assert t2[i].key == t1[i].key && t2[i].values == t1[i].values;
      }
    }
  }

  // ---------------------------------------------------------------- range query

  /** The WHERE clause of db.py:220-229; a falsy bound (`None`) is skipped. */
  predicate InRange(b: DailyBar, code: string, start: Option<int>, end: Option<int>) {
    && b.key.tsCode == code
    && (start.Some? ==> b.key.tradeDate >= start.value)
    && (end.Some? ==> b.key.tradeDate <= end.value)
  }

  function Select(rows: seq<DailyBar>, code: string, start: Option<int>, end: Option<int>): (r: seq<DailyBar>)
    ensures forall b :: b in r <==> b in rows && InRange(b, code, start, end)
    ensures UniqueKeys(rows) ==> UniqueKeys(r)
  {
    if rows == [] then []
    else
      var init := rows[..|rows| - 1];
      var pre := Select(init, code, start, end);
      var b := rows[|rows| - 1];
      assert forall x :: x in rows <==> x in init || x == b;
      assert UniqueKeys(rows) ==> UniqueKeys(init) && forall x :: x in init ==> x.key != b.key;
      if InRange(b, code, start, end) then pre + [b] else pre
  }

  /** `ORDER BY trade_date DESC`, non-strictly. */
  ghost predicate Descending(s: seq<DailyBar>) {
    forall i, j :: 0 <= i < j < |s| ==> s[i].key.tradeDate >= s[j].key.tradeDate
  }

  ghost predicate StrictlyDescending(s: seq<DailyBar>) {
    forall i, j :: 0 <= i < j < |s| ==> s[i].key.tradeDate > s[j].key.tradeDate
  }

  function InsertDesc(x: DailyBar, s: seq<DailyBar>): (r: seq<DailyBar>)
    ensures |r| == |s| + 1
    ensures forall y :: y in r <==> y == x || y in s
    ensures multiset(r) == multiset(s) + multiset{x}
  {
    if s == [] then [x]
    else if x.key.tradeDate >= s[0].key.tradeDate then [x] + s
    else
      assert s == [s[0]] + s[1..];
      [s[0]] + InsertDesc(x, s[1..])
  }

  lemma {:induction false} InsertDescSorted(x: DailyBar, s: seq<DailyBar>)
    requires Descending(s)
    ensures Descending(InsertDesc(x, s))
  {
    if s != [] && x.key.tradeDate < s[0].key.tradeDate {
      var rest := InsertDesc(x, s[1..]);
      InsertDescSorted(x, s[1..]);
      var r := [s[0]] + rest;
      assert r == InsertDesc(x, s);
      forall k | 0 <= k < |rest| ensures s[0].key.tradeDate >= rest[k].key.tradeDate {
        assert rest[k] in rest;
        if rest[k] != x {
          var m :| 0 <= m < |s[1..]| && s[1..][m] == rest[k];
          assert s[m + 1] == rest[k];
        }
      }
      forall i, j | 0 <= i < j < |r| ensures r[i].key.tradeDate >= r[j].key.tradeDate {
        if i > 0 {
          assert r[i] == rest[i - 1] && r[j] == rest[j - 1];
        } else {
          assert r[j] == rest[j - 1];
        }
      }
    }
  }

  /** A row whose key no row of `r` has can go in front. */
  lemma ConsUnique(y: DailyBar, r: seq<DailyBar>)
    requires UniqueKeys(r)
    requires forall z :: z in r ==> z.key != y.key
    ensures UniqueKeys([y] + r)
  {
    var t := [y] + r;
    forall i, j | 0 <= i < j < |t| ensures t[i].key != t[j].key {
      assert t[j] == r[j - 1];
      if i == 0 {
        assert r[j - 1] in r;
      } else {
        assert t[i] == r[i - 1];
      }
    }
  }

  /** The tail of a table without repeated keys has none either, and no row of it shares the
      head's key. */
  lemma UnconsUnique(s: seq<DailyBar>)
    requires s != [] && UniqueKeys(s)
    ensures UniqueKeys(s[1..])
    ensures forall z :: z in s[1..] ==> z.key != s[0].key
  {
    forall z | z in s[1..] ensures z.key != s[0].key {
      var m :| 0 <= m < |s[1..]| && s[1..][m] == z;
      assert s[m + 1] == z;
    }
  }

  lemma {:induction false} InsertDescUnique(x: DailyBar, s: seq<DailyBar>)
    requires UniqueKeys(s)
    requires forall y :: y in s ==> y.key != x.key
    ensures UniqueKeys(InsertDesc(x, s))
  {
    if s != [] {
      if x.key.tradeDate < s[0].key.tradeDate {
        UnconsUnique(s);
        assert forall y :: y in s[1..] ==> y in s;
        InsertDescUnique(x, s[1..]);
        assert s[0] in s;
        ConsUnique(s[0], InsertDesc(x, s[1..]));
      } else {
        ConsUnique(x, s);
      }
    }
  }

  /** The rows of one query in `ORDER BY trade_date DESC` order (an insertion sort). */
  function SortDesc(s: seq<DailyBar>): (r: seq<DailyBar>)
    ensures |r| == |s|
    ensures forall y :: y in r <==> y in s
    ensures multiset(r) == multiset(s)
  {
    if s == [] then []
    else
      assert s == [s[0]] + s[1..];
      InsertDesc(s[0], SortDesc(s[1..]))
  }

  lemma {:induction false} SortDescSpec(s: seq<DailyBar>)
    ensures Descending(SortDesc(s))
    ensures UniqueKeys(s) ==> UniqueKeys(SortDesc(s))
  {
    if s != [] {
      assert s == [s[0]] + s[1..];
      SortDescSpec(s[1..]);
      InsertDescSorted(s[0], SortDesc(s[1..]));
      if UniqueKeys(s) {
        assert UniqueKeys(s[1..]) by {
          forall i, j | 0 <= i < j < |s[1..]| ensures s[1..][i].key != s[1..][j].key {
            assert s[1..][i] == s[i + 1] && s[1..][j] == s[j + 1];
          }
        }
        forall y | y in SortDesc(s[1..]) ensures y.key != s[0].key {
          var m :| 0 <= m < |s[1..]| && s[1..][m] == y;
          assert s[m + 1] == y;
        }
        InsertDescUnique(s[0], SortDesc(s[1..]));
      }
    }
  }

  /** The `LIMIT` part of db.py:233-235: a falsy limit (`None` or 0) adds no clause, and
      SQLite reads a negative limit as no limit. */
  function ApplyLimit(s: seq<DailyBar>, limit: Option<int>): seq<DailyBar> {
    if limit.Some? && 0 < limit.value < |s| then s[..limit.value] else s
  }

  predicate Capped(limit: Option<int>) {
    limit.Some? && limit.value > 0
  }

  /** `get_daily_prices(ts_code, start_date, end_date, limit)` on the table `rows`. */
  function QueryPrices(rows: seq<DailyBar>, code: string, start: Option<int>, end: Option<int>, limit: Option<int>): seq<DailyBar> {
    ApplyLimit(SortDesc(Select(rows, code, start, end)), limit)
  }

  /** The selected rows of one code, sorted, never share a date. */
  lemma SortedSelectionStrict(rows: seq<DailyBar>, code: string, start: Option<int>, end: Option<int>)
    requires UniqueKeys(rows)
    ensures StrictlyDescending(SortDesc(Select(rows, code, start, end)))
  {
    var sel := Select(rows, code, start, end);
    var s := SortDesc(sel);
    SortDescSpec(sel);
    forall i, j | 0 <= i < j < |s| ensures s[i].key.tradeDate > s[j].key.tradeDate {
      assert s[i] in sel && s[j] in sel;
      assert s[i].key.tsCode == code == s[j].key.tsCode;
    }
  }

  /** What the query returns: only rows of `code` inside the bounds, newest first, and at most
      `limit` of them when the limit is positive. On a table with unique keys no two of them
      share a date. */
  lemma QueryPricesSound(rows: seq<DailyBar>, code: string, start: Option<int>, end: Option<int>, limit: Option<int>)
    ensures var r := QueryPrices(rows, code, start, end, limit);
      && (forall b :: b in r ==> b in rows && InRange(b, code, start, end))
      && Descending(r)
      && (UniqueKeys(rows) ==> StrictlyDescending(r))
      && (Capped(limit) ==> |r| <= limit.value)
  {
    var s := SortDesc(Select(rows, code, start, end));
    SortDescSpec(Select(rows, code, start, end));
    if UniqueKeys(rows) {
      SortedSelectionStrict(rows, code, start, end);
    }
    var r := ApplyLimit(s, limit);
    assert forall i :: 0 <= i < |r| ==> r[i] == s[i];
    assert forall b :: b in r ==> b in s;
  }

  /** On a table with unique keys every matching row is returned, unless a positive limit was
      reached and the row is older than the oldest row returned. */
  lemma QueryPricesComplete(rows: seq<DailyBar>, code: string, start: Option<int>, end: Option<int>, limit: Option<int>)
    ensures var r := QueryPrices(rows, code, start, end, limit);
      UniqueKeys(rows) ==> forall b :: b in rows && InRange(b, code, start, end) ==>
        b in r || (Capped(limit) && |r| == limit.value && b.key.tradeDate < r[|r| - 1].key.tradeDate)
  {
    if UniqueKeys(rows) {
      var s := SortDesc(Select(rows, code, start, end));
      SortedSelectionStrict(rows, code, start, end);
      var r := ApplyLimit(s, limit);
      forall b | b in rows && InRange(b, code, start, end)
        ensures b in r || (Capped(limit) && |r| == limit.value && b.key.tradeDate < r[|r| - 1].key.tradeDate)
      {
        assert b in s;
        var j :| 0 <= j < |s| && s[j] == b;
        if r != s {
          if j < limit.value {
            assert r[j] == b;
          } else {
            assert r[|r| - 1] == s[limit.value - 1];
          }
        }
      }
    }
  }

  // ---------------------------------------------------------------- freshness

  predicate Recent(b: DailyBar, code: string, cutoff: int) {
    b.key.tsCode == code && b.key.tradeDate >= cutoff
  }

  /** `SELECT COUNT(*) ... WHERE ts_code = ? AND trade_date >= ?` (db.py:312-315). */
  function CountRecent(rows: seq<DailyBar>, code: string, cutoff: int): (n: nat)
    ensures n <= |rows|
    ensures n > 0 <==> exists i :: 0 <= i < |rows| && Recent(rows[i], code, cutoff)
  {
    if rows == [] then 0
    else
      var pre := rows[..|rows| - 1];
      assert forall i :: 0 <= i < |pre| ==> pre[i] == rows[i];
      CountRecent(pre, code, cutoff) + (if Recent(rows[|rows| - 1], code, cutoff) then 1 else 0)
  }

  /** `is_data_fresh`: some bar of `code` is dated on or after the cutoff date. */
  function IsDataFresh(rows: seq<DailyBar>, code: string, cutoff: int): (r: bool)
    ensures r <==> exists i :: 0 <= i < |rows| && Recent(rows[i], code, cutoff)
  {
    CountRecent(rows, code, cutoff) > 0
  }
}
