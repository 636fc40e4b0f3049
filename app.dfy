/** app.py: the `initialization_status` record and the operations that update it, and the
    shaping of the `/api/sector-data` response (sort score, null-out formatting, stable
    descending order of the sectors). */
module App {
  import opened Common
  import opened Records
  import opened Snapshots
  import opened Db
  import opened Metrics
  import opened StockData
  import opened StockDataSectors

  /** The message `initialize_data` prefixes to the exception text (app.py:48). */
  const InitErrorPrefix := "数据初始化发生错误: "

  /** The global `initialization_status` (app.py:19-24); `lastUpdate` is the time of the
      last completion, in seconds. */
  class InitStatus {
    var complete: bool
    var inProgress: bool
    var lastUpdate: Option<int>
    var error: Option<string>

    /** The initial value of app.py:19-24. */
    constructor ()
      ensures !complete && !inProgress && lastUpdate == None && error == None
    {
      complete, inProgress, lastUpdate, error := false, false, None, None;
    }

    /** `initialize_data()` (app.py:27-56) at time `now`. `failure` is the text of the
        exception the refresh raises before it changes anything, if it raises. */
    method InitializeData(db: Database, env: Env, sectors: seq<Sector>, failure: Option<string>) returns (ok: bool)
      requires db.Valid()
      modifies this, db
      ensures db.Valid()
      ensures ok <==> failure.None?
      ensures !inProgress && complete == ok
      ensures ok ==> lastUpdate == Some(env.now) && error == None
      ensures !ok ==> lastUpdate == old(lastUpdate) && error == Some(InitErrorPrefix + failure.value)
      ensures ok ==> exists result :: RefreshOutcome(env, sectors, old(db.registry), old(db.prices), old(db.snapshots),
                                                     db.registry, db.prices, db.snapshots, result)
      ensures !ok ==> db.registry == old(db.registry) && db.prices == old(db.prices) && db.snapshots == old(db.snapshots)
    {
      inProgress, complete, error := true, false, None;
      if failure.Some? {
        complete, inProgress, error := false, false, Some(InitErrorPrefix + failure.value);
        return false;
      }
      var result := AllSectorStocksData(db, env, sectors);
      complete, inProgress, lastUpdate := true, false, Some(env.now);
      ok := true;
    }

    /** `start_background_initialization()` (app.py:62-83): refused while a run is in
        progress; otherwise the run, here carried out before returning. */
    method StartBackgroundInitialization(db: Database, env: Env, sectors: seq<Sector>, failure: Option<string>)
      returns (started: bool)
      requires db.Valid()
      modifies this, db
      ensures db.Valid()
      ensures started <==> !old(inProgress)
      ensures !started ==> complete == old(complete) && inProgress && lastUpdate == old(lastUpdate) && error == old(error)
                           && db.registry == old(db.registry) && db.prices == old(db.prices) && db.snapshots == old(db.snapshots)
      ensures started ==> !inProgress && (complete <==> failure.None?)
      ensures started && failure.None? ==> lastUpdate == Some(env.now) && error == None
                                           && exists result :: RefreshOutcome(env, sectors, old(db.registry), old(db.prices), old(db.snapshots),
                                                                              db.registry, db.prices, db.snapshots, result)
      ensures started && failure.Some? ==> lastUpdate == old(lastUpdate) && error == Some(InitErrorPrefix + failure.value)
    {
      if inProgress {
        return false;
      }
      var _ := InitializeData(db, env, sectors, failure);
      started := true;
    }

    /** The status part of `check_init_status()` (app.py:96-113) at time `now`: look for any
        cached sector, and mark the status complete when data exists but neither a run has
        completed nor one is in progress. */
    method CheckInitStatus(db: Database, names: seq<string>, now: int) returns (hasData: bool)
      modifies this
      ensures hasData <==> exists i :: 0 <= i < |names| && HasSnapshot(db.snapshots, names[i])
      ensures var repair := hasData && !old(complete) && !old(inProgress);
        && complete == (old(complete) || repair)
        && lastUpdate == (if repair then Some(now) else old(lastUpdate))
        && inProgress == old(inProgress) && error == old(error)
    {
      hasData := false;
      var i := 0;
      while i < |names|
        invariant 0 <= i <= |names|
        invariant forall j :: 0 <= j < i ==> !HasSnapshot(db.snapshots, names[j])
        invariant complete == old(complete) && inProgress == old(inProgress)
        invariant lastUpdate == old(lastUpdate) && error == old(error)
      {
        var data := db.GetLatestSectorData(names[i], now, 30);
        LatestNoneIff(db.snapshots, names[i], now, 30);
        if data.Some? {
          hasData := true;
          break;
        }
        i := i + 1;
      }
      if hasData && !complete && !inProgress {
        complete, lastUpdate := true, Some(now);
      }
    }

    /** The data part of `get_sector_data()` (app.py:153-199): route the request, then shape
        the sectors it returns. `sectorData` is the dictionary the routed call returned. */
    method GetSectorData(db: Database, env: Env, sectors: seq<Sector>, forceRefresh: bool, refreshRaises: bool)
      returns (response: SectorResponse, sectorData: seq<SectorData>)
      requires db.Valid()
      modifies db
      ensures db.Valid()
      ensures response == Respond(sectorData)
      ensures var names := Names(sectors);
        var cached := CachedPrefix(old(db.snapshots), names, env.now);
        var unchangedDb := db.registry == old(db.registry) && db.prices == old(db.prices) && db.snapshots == old(db.snapshots);
        var refreshed := RefreshOutcome(env, sectors, old(db.registry), old(db.prices), old(db.snapshots),
                                        db.registry, db.prices, db.snapshots, sectorData);
        && (forceRefresh ==> refreshed)
        && (!forceRefresh && AllCached(old(db.snapshots), names, env.now) ==> sectorData == RescoreAll(cached) && unchangedDb)
        && (!forceRefresh && !AllCached(old(db.snapshots), names, env.now) && !refreshRaises ==> refreshed)
        && (!forceRefresh && !AllCached(old(db.snapshots), names, env.now) && refreshRaises ==>
              sectorData == (if cached != [] then cached else EmptyResult(names)) && unchangedDb)
    {
      match Route(complete, forceRefresh) {
        case DirectRefresh =>
          sectorData := AllSectorStocksData(db, env, sectors);
        case Comparison =>
          ghost var path;
          sectorData, path := GetSectorComparison(db, env, sectors, false, refreshRaises);
      }
      response := Respond(sectorData);
    }
  }

  // ---------------------------------------------------------------- routing

  datatype Source = DirectRefresh | Comparison

  /** The three branches of app.py:158-166, with `complete` the status flag. */
  function Route(complete: bool, forceRefresh: bool): (r: Source)
    ensures r == DirectRefresh <==> forceRefresh
  {
    if complete && !forceRefresh then Comparison
    else if forceRefresh then DirectRefresh
    else Comparison
  }

  // ---------------------------------------------------------------- sort score

  /** The sort score of one sector (app.py:169-174): the first record's `sector_score` when
      it has one, else 0. */
  function SortScore(stocks: seq<StockRecord>): real {
    if stocks != [] && stocks[0].sectorScore.Some? then stocks[0].sectorScore.value else 0.0
  }

  /** On a list whose records carry their own sector score (every list the refresh or the
      cache path returns), the sort score is that sector score. */
  lemma SortScoreIsSectorScore(stocks: seq<StockRecord>)
    requires Consistent(stocks)
    ensures SortScore(stocks) == SectorScore(stocks)
  {
    if stocks == [] {
      assert SectorScore(stocks) == 0.0;
    }
  }

  function Scores(data: seq<SectorData>): (r: seq<real>)
    ensures |r| == |data| && forall i :: 0 <= i < |data| ==> r[i] == SortScore(data[i].stocks)
  {
    seq(|data|, i requires 0 <= i < |data| => SortScore(data[i].stocks))
  }

  // ---------------------------------------------------------------- formatting

  /** One formatted record of app.py:181-193. */
  datatype FormattedStock = FormattedStock(
    name: string, code: string, latestPrice: Option<real>, highestPrice: Option<real>, highestDate: int,
    maxIncrease: Option<real>, dropPercentage: Option<real>, sectorScore: real,
    latestVolume: Option<real>, maxVolume: Option<real>, volumeRatio: Option<real>)

  /** `f` is `float(x) if x else None` of the value `x`: absent exactly when `x` is falsy. */
  predicate NulledOut(x: Option<real>, f: Option<real>) {
    (f.None? <==> x.None? || x.value == 0.0) && (f.Some? ==> x == f)
  }

  function NullIfFalsy(x: Option<real>): (f: Option<real>)
    ensures NulledOut(x, f)
  {
    if x.Some? && x.value != 0.0 then x else None
  }

  /** The formatted record: each numeric field nulled out when falsy, `sector_score` 0 when
      absent, names, code and date kept. */
  function FormatStock(s: StockRecord): (f: FormattedStock)
    ensures f.name == s.name && f.code == s.code && f.highestDate == s.highestDate
    ensures NulledOut(Some(s.latestPrice), f.latestPrice) && NulledOut(Some(s.highestPrice), f.highestPrice)
    ensures NulledOut(Some(s.maxIncrease), f.maxIncrease) && NulledOut(s.dropPercentage, f.dropPercentage)
    ensures NulledOut(Some(s.latestVolume), f.latestVolume) && NulledOut(Some(s.maxVolume), f.maxVolume)
    ensures NulledOut(Some(s.volumeRatio), f.volumeRatio)
    ensures f.sectorScore == if s.sectorScore.Some? then s.sectorScore.value else 0.0
  {
    FormattedStock(
      s.name, s.code, NullIfFalsy(Some(s.latestPrice)), NullIfFalsy(Some(s.highestPrice)), s.highestDate,
      NullIfFalsy(Some(s.maxIncrease)), NullIfFalsy(s.dropPercentage),
      if s.sectorScore.Some? then s.sectorScore.value else 0.0,
      NullIfFalsy(Some(s.latestVolume)), NullIfFalsy(Some(s.maxVolume)), NullIfFalsy(Some(s.volumeRatio)))
  }

  /** A formatted sector: one formatted record per record, in order. */
  function FormatSector(stocks: seq<StockRecord>): (r: seq<FormattedStock>)
    ensures |r| == |stocks| && forall k :: 0 <= k < |stocks| ==> r[k] == FormatStock(stocks[k])
  {
    seq(|stocks|, k requires 0 <= k < |stocks| => FormatStock(stocks[k]))
  }

  /** A formatted field never holds 0: the formatting cannot tell a zero from a missing value. */
  lemma FormattedNeverZero(s: StockRecord)
    ensures var f := FormatStock(s);
      var fields := [f.latestPrice, f.highestPrice, f.maxIncrease, f.dropPercentage, f.latestVolume, f.maxVolume, f.volumeRatio];
      forall x :: x in fields ==> x != Some(0.0)
  {
  }

  // ---------------------------------------------------------------- stable descending sort

  /** Position `a` comes before position `b` in `sorted(..., reverse=True)`: a higher score
      first, and equal scores in their original order (Python's sort is stable). */
  predicate Before(a: nat, b: nat, scores: seq<real>)
    requires a < |scores| && b < |scores|
  {
    scores[a] > scores[b] || (scores[a] == scores[b] && a < b)
  }

  lemma BeforeTransitive(a: nat, b: nat, c: nat, scores: seq<real>)
    requires a < |scores| && b < |scores| && c < |scores|
    requires Before(a, b, scores) && Before(b, c, scores)
    ensures Before(a, c, scores)
  {
  }

  predicate InRange(order: seq<nat>, scores: seq<real>) {
    forall k :: 0 <= k < |order| ==> order[k] < |scores|
  }

  /** Every earlier position of `order` comes before every later one. */
  predicate SortedStable(order: seq<nat>, scores: seq<real>) {
    InRange(order, scores) && forall k, l :: 0 <= k < l < |order| ==> Before(order[k], order[l], scores)
  }

  /** Place `x` after every element that comes before it. */
  function Insert(order: seq<nat>, x: nat, scores: seq<real>): (r: seq<nat>)
    requires x < |scores| && InRange(order, scores)
    ensures |r| == |order| + 1 && InRange(r, scores)
    ensures forall y :: y in r <==> y in order || y == x
  {
    if order == [] then [x]
    else if Before(order[0], x, scores) then [order[0]] + Insert(order[1..], x, scores)
    else [x] + order
  }

  lemma {:induction false} InsertPermutes(order: seq<nat>, x: nat, scores: seq<real>)
    requires x < |scores| && InRange(order, scores)
    ensures multiset(Insert(order, x, scores)) == multiset(order) + multiset{x}
  {
    if order != [] {
      var rest := order[1..];
      assert order == [order[0]] + rest;
      if Before(order[0], x, scores) {
        InsertPermutes(rest, x, scores);
      }
    }
  }

  /** A sorted list stays sorted with an element in front that comes before its head. */
  lemma ConsSorted(y: nat, order: seq<nat>, scores: seq<real>)
    requires y < |scores| && SortedStable(order, scores)
    requires forall z :: z in order ==> Before(y, z, scores)
    ensures SortedStable([y] + order, scores)
  {
    var r := [y] + order;
    forall k, l | 0 <= k < l < |r| ensures Before(r[k], r[l], scores) {
      if k == 0 {
        assert r[l] == order[l - 1] && r[l] in order;
      } else {
        assert r[k] == order[k - 1] && r[l] == order[l - 1];
      }
    }
  }

  lemma {:induction false} InsertSorted(order: seq<nat>, x: nat, scores: seq<real>)
    requires x < |scores| && SortedStable(order, scores) && x !in order
    ensures SortedStable(Insert(order, x, scores), scores)
  {
    if order == [] {
      return;
    }
    var y, rest := order[0], order[1..];
    assert forall z :: z in rest ==> Before(y, z, scores) by {
      forall z | z in rest ensures Before(y, z, scores) {
        var j :| 0 <= j < |rest| && rest[j] == z;
        assert order[j + 1] == z;
      }
    }
    assert SortedStable(rest, scores) by {
      forall k, l | 0 <= k < l < |rest| ensures Before(rest[k], rest[l], scores) {
        assert rest[k] == order[k + 1] && rest[l] == order[l + 1];
      }
    }
    if Before(y, x, scores) {
      InsertSorted(rest, x, scores);
      ConsSorted(y, Insert(rest, x, scores), scores);
    } else {
      assert Before(x, y, scores);
      forall z | z in order ensures Before(x, z, scores) {
        if z != y {
          BeforeTransitive(x, y, z, scores);
        }
      }
      ConsSorted(x, order, scores);
    }
  }

  /** The positions `0 .. n-1` in the order `sorted(..., key=score, reverse=True)` gives. */
  function SortPositions(n: nat, scores: seq<real>): (r: seq<nat>)
    requires n <= |scores|
    ensures |r| == n && forall k :: 0 <= k < n ==> r[k] < n
  {
    if n == 0 then []
    else
      var pre := SortPositions(n - 1, scores);
      var r := Insert(pre, n - 1, scores);
      assert forall k :: 0 <= k < n ==> r[k] in r;
      r
  }

  function Positions(n: nat): (r: seq<nat>)
    ensures |r| == n && forall k :: 0 <= k < n ==> r[k] == k
  {
    seq(n, k requires 0 <= k < n => k)
  }

  /** The sort is a permutation of the positions. */
  lemma {:induction false} SortPositionsPermutes(n: nat, scores: seq<real>)
    requires n <= |scores|
    ensures multiset(SortPositions(n, scores)) == multiset(Positions(n))
  {
    if n > 0 {
      var pre := SortPositions(n - 1, scores);
      SortPositionsPermutes(n - 1, scores);
      InsertPermutes(pre, n - 1, scores);
      assert Positions(n) == Positions(n - 1) + [n - 1];
    }
  }

  /** The sort orders the positions by descending score, ties in position order. */
  lemma {:induction false} SortPositionsSorted(n: nat, scores: seq<real>)
    requires n <= |scores|
    ensures SortedStable(SortPositions(n, scores), scores)
  {
    if n > 0 {
      var pre := SortPositions(n - 1, scores);
      SortPositionsSorted(n - 1, scores);
      assert n - 1 !in pre;
      InsertSorted(pre, n - 1, scores);
    }
  }

  // ---------------------------------------------------------------- the response

  datatype FormattedSector = FormattedSector(sector: string, stocks: seq<FormattedStock>)

  /** `formatted_data`, `sorted_sectors` and `sector_scores` of app.py:201-206, each in
      SECTORS order except `sortedSectors`. */
  datatype SectorResponse = SectorResponse(data: seq<FormattedSector>, sortedSectors: seq<string>, sectorScores: seq<real>)

  function Respond(sectorData: seq<SectorData>): SectorResponse {
    var scores := Scores(sectorData);
    var order := SortPositions(|sectorData|, scores);
    SectorResponse(
      seq(|sectorData|, i requires 0 <= i < |sectorData| => FormattedSector(sectorData[i].sector, FormatSector(sectorData[i].stocks))),
      seq(|order|, k requires 0 <= k < |order| => if order[k] < |sectorData| then sectorData[order[k]].sector else ""),
      scores)
  }

  /** The response keeps every sector with its formatted records, and lists the sectors as a
      permutation of the positions, by descending sort score, ties in dictionary order. */
  lemma RespondSpec(sectorData: seq<SectorData>)
    ensures var r := Respond(sectorData);
      && |r.data| == |sectorData| && |r.sectorScores| == |sectorData|
      && (forall i :: 0 <= i < |sectorData| ==>
            r.data[i].sector == sectorData[i].sector && r.data[i].stocks == FormatSector(sectorData[i].stocks)
            && r.sectorScores[i] == SortScore(sectorData[i].stocks))
      && exists order: seq<nat> ::
            && multiset(order) == multiset(Positions(|sectorData|))
            && SortedStable(order, r.sectorScores)
            && |r.sortedSectors| == |order|
            && forall k :: 0 <= k < |order| ==> r.sortedSectors[k] == sectorData[order[k]].sector
  {
    var scores := Scores(sectorData);
    var order := SortPositions(|sectorData|, scores);
    SortPositionsPermutes(|sectorData|, scores);
    SortPositionsSorted(|sectorData|, scores);
    var r := Respond(sectorData);
    assert |r.sortedSectors| == |order|;
  }
}
