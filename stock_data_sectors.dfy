/** The aggregating half of stock_data.py: `get_all_sector_stocks_data`, which resolves every
    member, refreshes their bars, builds each sector's records and saves a snapshot per
    sector, and `get_sector_comparison`, which serves the snapshot cache or refreshes. */
module StockDataSectors {
  import opened Common
  import opened Records
  import opened Registry
  import opened DailyPrices
  import opened Snapshots
  import opened Db
  import opened Metrics
  import opened StockData

  /** One entry of the ordered SECTORS dictionary: the sector's name and its member names.
      A name may be a member of several sectors. */
  datatype Sector = Sector(name: string, members: seq<string>)

  function Names(sectors: seq<Sector>): (r: seq<string>)
    ensures |r| == |sectors| && forall i :: 0 <= i < |sectors| ==> r[i] == sectors[i].name
  {
    seq(|sectors|, i requires 0 <= i < |sectors| => sectors[i].name)
  }

  /** `all_stocks` (stock_data.py:239-241). */
  function AllMembers(sectors: seq<Sector>): set<string> {
    set i, k | 0 <= i < |sectors| && 0 <= k < |sectors[i].members| :: sectors[i].members[k]
  }

  // ---------------------------------------------------------------- resolution of all members

  /** `stock_codes` (stock_data.py:247-257): each name whose `get_stock_code` is truthy. */
  function CodeMap(reg: seq<RegistryEntry>, env: Env, names: set<string>): map<string, string> {
    map n | n in names && Truthy(ResolveCode(reg, env, n)) :: ResolveCode(reg, env, n).value
  }

  /** Resolving one more name adds at most its own entry. */
  lemma CodeMapInsert(reg: seq<RegistryEntry>, env: Env, done: set<string>, name: string)
    requires name !in done
    ensures CodeMap(reg, env, done + {name}) ==
      if Truthy(ResolveCode(reg, env, name)) then CodeMap(reg, env, done)[name := ResolveCode(reg, env, name).value]
      else CodeMap(reg, env, done)
  {
  }

  lemma ValuesInsert(m: map<string, string>, k: string, v: string)
    requires k !in m
    ensures m[k := v].Values == m.Values + {v}
  {
    forall x | x in m[k := v].Values ensures x in m.Values + {v} {
      var j :| j in m[k := v] && m[k := v][j] == x;
      if j != k {
        assert m[j] == x;
      }
    }
    forall x | x in m.Values + {v} ensures x in m[k := v].Values {
      if x != v {
        var j :| j in m && m[j] == x;
        assert m[k := v][j] == x;
      } else {
        assert m[k := v][k] == v;
      }
    }
  }

  /** The resolution loop over the set of names, in the set's (unspecified) order. `codeList`
      is `list(stock_codes.values())`: a code resolved for two names appears twice. */
  method ResolveAll(db: Database, env: Env, names: set<string>)
    returns (stockCodes: map<string, string>, codeList: seq<string>)
    requires db.Valid()
    requires RefreshedRegistry(db.registry, env) == db.registry
    modifies db
    ensures db.Valid()
    ensures db.registry == old(db.registry) && db.prices == old(db.prices) && db.snapshots == old(db.snapshots)
    ensures stockCodes == CodeMap(db.registry, env, names)
    ensures forall c :: c in codeList <==> c in stockCodes.Values
  {
    var remaining := names;
    stockCodes, codeList := map[], [];
    while remaining != {}
      invariant remaining <= names
      invariant db.Valid()
      invariant db.registry == old(db.registry) && db.prices == old(db.prices) && db.snapshots == old(db.snapshots)
      invariant stockCodes == CodeMap(db.registry, env, names - remaining)
      invariant forall c :: c in codeList <==> c in stockCodes.Values
      decreases remaining
    {
      var name :| name in remaining;
      ResolveOnRefreshed(db.registry, env, name);
      var code := GetStockCode(db, env, name);
      CodeMapInsert(db.registry, env, names - remaining, name);
      if Truthy(code) {
        ValuesInsert(stockCodes, name, code.value);
        stockCodes := stockCodes[name := code.value];
        codeList := codeList + [code.value];
      }
      assert (names - remaining) + {name} == names - (remaining - {name});
      remaining := remaining - {name};
    }
    assert names - remaining == names;
  }

  // ---------------------------------------------------------------- one sector

  /** The record of one member name (stock_data.py:286-357), or `None` when it is skipped:
      no code, a failed update, no latest bar, or no bar in the window. */
  function MemberRecord(prices: seq<DailyBar>, codes: map<string, string>, results: map<string, bool>,
                        name: string, env: Env): Option<StockRecord>
  {
    if name !in codes || codes[name] == "" then None
    else
      var code := codes[name];
      if code in results && !results[code] then None
      else
        var latest := QueryPrices(prices, code, None, None, Some(1));
        if latest == [] then None
        else
          var hist := QueryPrices(prices, code, Some(env.windowStart), Some(env.today), None);
          if hist == [] then None
          else Some(MemberMetrics(name, code, latest[0], hist, env.today))
  }

  /** The values present in `xs`, in order. */
  function Somes<T>(xs: seq<Option<T>>): seq<T> {
    if xs == [] then []
    else
      var init := Somes(xs[..|xs| - 1]);
      match xs[|xs| - 1]
      case Some(v) => init + [v]
      case None => init
  }

  /** `idx` maps each kept value to its position in `xs`, strictly increasing, and every
      position holding a value is hit. */
  lemma {:induction false} SomesInOrder<T>(xs: seq<Option<T>>) returns (idx: seq<nat>)
    ensures |idx| == |Somes(xs)|
    ensures forall k :: 0 <= k < |idx| ==> idx[k] < |xs| && xs[idx[k]] == Some(Somes(xs)[k])
    ensures forall k, l :: 0 <= k < l < |idx| ==> idx[k] < idx[l]
    ensures forall m :: 0 <= m < |xs| && xs[m].Some? ==> exists k :: 0 <= k < |idx| && idx[k] == m
  {
    if xs == [] {
      idx := [];
    } else {
      var n := |xs| - 1;
      var init := xs[..n];
      var pre := SomesInOrder(init);
      var s0 := Somes(init);
      if xs[n].Some? {
        idx := pre + [n];
        assert Somes(xs) == s0 + [xs[n].value];
        forall k | 0 <= k < |idx| ensures idx[k] < |xs| && xs[idx[k]] == Some(Somes(xs)[k]) {
          if k < |pre| {
            assert idx[k] == pre[k] && Somes(xs)[k] == s0[k] && init[pre[k]] == xs[pre[k]];
          }
        }
        forall m | 0 <= m < |xs| && xs[m].Some? ensures exists k :: 0 <= k < |idx| && idx[k] == m {
          if m < n {
            assert init[m] == xs[m];
            var k :| 0 <= k < |pre| && pre[k] == m;
            assert idx[k] == m;
          } else {
            assert idx[|pre|] == m;
          }
        }
      } else {
        idx := pre;
        forall k | 0 <= k < |idx| ensures idx[k] < |xs| && xs[idx[k]] == Some(Somes(xs)[k]) {
          assert init[pre[k]] == xs[pre[k]];
        }
        forall m | 0 <= m < |xs| && xs[m].Some? ensures exists k :: 0 <= k < |idx| && idx[k] == m {
          assert m < n && init[m] == xs[m];
        }
      }
    }
  }

  /** `f` applied to every element, in order. */
  function MapSeq<A, B>(f: A -> B, xs: seq<A>): (r: seq<B>)
    ensures |r| == |xs| && forall i :: 0 <= i < |xs| ==> r[i] == f(xs[i])
  {
    seq(|xs|, i requires 0 <= i < |xs| => f(xs[i]))
  }

  lemma MapPrefixSnoc<A, B>(f: A -> B, xs: seq<A>, k: nat)
    requires k < |xs|
    ensures MapSeq(f, xs[..k + 1]) == MapSeq(f, xs[..k]) + [f(xs[k])]
  {
    assert forall i :: 0 <= i < k ==> xs[..k + 1][i] == xs[..k][i];
  }

  /** `MemberRecord` as a function of the member name. */
  function MemberRecordOf(prices: seq<DailyBar>, codes: map<string, string>, results: map<string, bool>, env: Env)
    : string -> Option<StockRecord>
  {
    name => MemberRecord(prices, codes, results, name, env)
  }

  /** The per-member outcomes, in member order. */
  function MemberRecords(prices: seq<DailyBar>, codes: map<string, string>, results: map<string, bool>,
                         members: seq<string>, env: Env): seq<Option<StockRecord>>
  {
    MapSeq(MemberRecordOf(prices, codes, results, env), members)
  }

  /** The records of the members that are not skipped, in member order. */
  function Survivors(prices: seq<DailyBar>, codes: map<string, string>, results: map<string, bool>,
                     members: seq<string>, env: Env): seq<StockRecord>
  {
    Somes(MemberRecords(prices, codes, results, members, env))
  }

  /** Every record carries the score of the list it is in. */
  predicate Consistent(stocks: seq<StockRecord>) {
    forall k :: 0 <= k < |stocks| ==> stocks[k].sectorScore == Some(SectorScore(stocks))
  }

  /** The sector's entry: the survivors, each stamped with their sector score
      (stock_data.py:366-373). */
  function SectorResult(prices: seq<DailyBar>, codes: map<string, string>, results: map<string, bool>,
                        sector: Sector, env: Env): SectorData
  {
    var s := Survivors(prices, codes, results, sector.members, env);
    SectorData(sector.name, Stamp(s, SectorScore(s)))
  }

  /** The survivors are exactly the members with a record, in member order: `idx` gives, for
      each survivor, the position of its member, strictly increasing. */
  lemma SurvivorsInOrder(prices: seq<DailyBar>, codes: map<string, string>,
                         results: map<string, bool>, members: seq<string>, env: Env)
    returns (idx: seq<nat>)
    ensures var s := Survivors(prices, codes, results, members, env);
      && |idx| == |s|
      && (forall k :: 0 <= k < |idx| ==>
            idx[k] < |members| && MemberRecord(prices, codes, results, members[idx[k]], env) == Some(s[k]))
      && (forall k, l :: 0 <= k < l < |idx| ==> idx[k] < idx[l])
      && (forall m :: 0 <= m < |members| && MemberRecord(prices, codes, results, members[m], env).Some? ==>
            exists k :: 0 <= k < |idx| && idx[k] == m)
  {
    var xs := MemberRecords(prices, codes, results, members, env);
    idx := SomesInOrder(xs);
    assert forall m :: 0 <= m < |members| ==> xs[m] == MemberRecord(prices, codes, results, members[m], env);
  }

  /** The stamped records are the survivors, and they agree on one score: the score of their
      own list. */
  lemma SectorResultConsistent(prices: seq<DailyBar>, codes: map<string, string>, results: map<string, bool>,
                               sector: Sector, env: Env)
    ensures var r := SectorResult(prices, codes, results, sector, env);
      r.sector == sector.name
      && SameExceptScore(Survivors(prices, codes, results, sector.members, env), r.stocks)
      && Consistent(r.stocks)
  {
    var s := Survivors(prices, codes, results, sector.members, env);
    StampKeepsRecords(s, SectorScore(s));
    SectorScoreIgnoresScores(s, Stamp(s, SectorScore(s)));
  }

  /** The body of the member loop of stock_data.py:286-357 for one name, with a skip as
      `None`. */
  method MemberStep(db: Database, env: Env, codes: map<string, string>, results: map<string, bool>, name: string)
    returns (rec: Option<StockRecord>)
    ensures rec == MemberRecord(db.prices, codes, results, name, env)
  {
    if name !in codes || codes[name] == "" {
      return None;
    }
    var code := codes[name];
    if code in results && !results[code] {
      return None;
    }
    var latest := db.GetDailyPrices(code, None, None, Some(1));
    if latest == [] {
      return None;
    }
    var hist := db.GetDailyPrices(code, Some(env.windowStart), Some(env.today), None);
    if hist == [] {
      return None;
    }
    rec := Some(MemberMetrics(name, code, latest[0], hist, env.today));
  }

  /** `stock['sector_score'] = score` for every record, in place. */
  method StampScores(stocks: seq<StockRecord>, score: real) returns (r: seq<StockRecord>)
    ensures r == Stamp(stocks, score)
  {
    r := stocks;
    for k := 0 to |r|
      invariant |r| == |stocks|
      invariant forall j :: 0 <= j < k ==> r[j] == stocks[j].(sectorScore := Some(score))
      invariant forall j :: k <= j < |r| ==> r[j] == stocks[j]
    {
      r := r[k := r[k].(sectorScore := Some(score))];
    }
  }

  lemma SomesSnoc<T>(xs: seq<Option<T>>, x: Option<T>)
    ensures Somes(xs + [x]) == if x.Some? then Somes(xs) + [x.value] else Somes(xs)
  {
    assert (xs + [x])[..|xs|] == xs;
  }

  /** One more member adds its record, if any, at the end. */
  lemma SurvivorsSnoc(prices: seq<DailyBar>, codes: map<string, string>, results: map<string, bool>,
                      members: seq<string>, k: nat, env: Env)
    requires k < |members|
    ensures var rec := MemberRecord(prices, codes, results, members[k], env);
      Survivors(prices, codes, results, members[..k + 1], env) ==
        if rec.Some? then Survivors(prices, codes, results, members[..k], env) + [rec.value]
        else Survivors(prices, codes, results, members[..k], env)
  {
    var f := MemberRecordOf(prices, codes, results, env);
    MapPrefixSnoc(f, members, k);
    SomesSnoc(MapSeq(f, members[..k]), f(members[k]));
  }

  /** One sector of the loop at stock_data.py:282-373: the member loop, then the stamping of
      `sector_score` onto every record. */
  method BuildSector(db: Database, env: Env, codes: map<string, string>, results: map<string, bool>,
                     members: seq<string>)
    returns (stocks: seq<StockRecord>)
    ensures var s := Survivors(db.prices, codes, results, members, env); stocks == Stamp(s, SectorScore(s))
  {
    var sectorData := [];
    for k := 0 to |members|
      invariant sectorData == Survivors(db.prices, codes, results, members[..k], env)
    {
      var rec := MemberStep(db, env, codes, results, members[k]);
      SurvivorsSnoc(db.prices, codes, results, members, k, env);
      if rec.Some? {
        sectorData := sectorData + [rec.value];
      }
    }
    assert members[..|members|] == members;
    stocks := StampScores(sectorData, SectorScore(sectorData));
  }

  // ---------------------------------------------------------------- all sectors

  /** The returned dictionary, sector by sector in SECTORS order. */
  function BuildAll(prices: seq<DailyBar>, codes: map<string, string>, results: map<string, bool>,
                    sectors: seq<Sector>, env: Env): (r: seq<SectorData>)
    ensures |r| == |sectors|
    ensures forall i :: 0 <= i < |sectors| ==> r[i] == SectorResult(prices, codes, results, sectors[i], env)
  {
    seq(|sectors|, i requires 0 <= i < |sectors| => SectorResult(prices, codes, results, sectors[i], env))
  }

  /** The snapshot rows `save_sector_data` appends for a result, in order. */
  function SnapshotsOf(result: seq<SectorData>, now: int): (r: seq<Snapshot>)
    ensures |r| == |result|
    ensures forall i :: 0 <= i < |result| ==> r[i] == Snapshot(result[i].sector, Decoded(result[i].stocks), now)
  {
    seq(|result|, i requires 0 <= i < |result| => Snapshot(result[i].sector, Decoded(result[i].stocks), now))
  }

  /** Build every sector and save its snapshot as soon as it is built. */
  method BuildAndSaveSectors(db: Database, env: Env, codes: map<string, string>, results: map<string, bool>,
                             sectors: seq<Sector>)
    returns (result: seq<SectorData>)
    requires db.Valid()
    modifies db
    ensures db.Valid()
    ensures result == BuildAll(old(db.prices), codes, results, sectors, env)
    ensures db.snapshots == old(db.snapshots) + SnapshotsOf(result, env.now)
    ensures db.registry == old(db.registry) && db.prices == old(db.prices)
  {
    result := [];
    for i := 0 to |sectors|
      invariant db.Valid()
      invariant db.registry == old(db.registry) && db.prices == old(db.prices)
      invariant |result| == i
      invariant forall j :: 0 <= j < i ==> result[j] == SectorResult(db.prices, codes, results, sectors[j], env)
      invariant db.snapshots == old(db.snapshots) + SnapshotsOf(result, env.now)
    {
      var stocks := BuildSector(db, env, codes, results, sectors[i].members);
      var _ := db.SaveSectorData(sectors[i].name, stocks, env.now);
      SnapshotsOfSnoc(result, SectorData(sectors[i].name, stocks), env.now);
      result := result + [SectorData(sectors[i].name, stocks)];
    }
  }

  lemma SnapshotsOfSnoc(result: seq<SectorData>, d: SectorData, now: int)
    ensures SnapshotsOf(result + [d], now) == SnapshotsOf(result, now) + [Snapshot(d.sector, Decoded(d.stocks), now)]
  {
  }

  /** The `update_results` map for a code list, as `update_daily_data_batch` returns it. */
  function BatchResults(env: Env, codeList: seq<string>): map<string, bool> {
    map c | c in codeList :: !Aborted(env, codeList) && CodeSucceeds(env, c)
  }

  /** What a refresh does, from the tables before (`reg0`, `prices0`, `snaps0`) to the tables
      after and the returned `result`, for some order of the resolved codes. */
  ghost predicate RefreshOutcome(env: Env, sectors: seq<Sector>,
                                 reg0: seq<RegistryEntry>, prices0: seq<DailyBar>, snaps0: seq<Snapshot>,
                                 reg1: seq<RegistryEntry>, prices1: seq<DailyBar>, snaps1: seq<Snapshot>,
                                 result: seq<SectorData>)
  {
    var codes := CodeMap(RefreshedRegistry(reg0, env), env, AllMembers(sectors));
    && reg1 == RefreshedRegistry(reg0, env)
    && exists codeList: seq<string> ::
      && (forall c :: c in codeList <==> c in codes.Values)
      && prices1 == SavedPrices(prices0, env, ProcessedCodes(env, codeList))
      && result == BuildAll(prices1, codes, BatchResults(env, codeList), sectors, env)
      && snaps1 == snaps0 + SnapshotsOf(result, env.now)
  }

  /** `get_all_sector_stocks_data()` (stock_data.py:230-386). */
  method AllSectorStocksData(db: Database, env: Env, sectors: seq<Sector>) returns (result: seq<SectorData>)
    requires db.Valid()
    modifies db
    ensures db.Valid()
    ensures RefreshOutcome(env, sectors, old(db.registry), old(db.prices), old(db.snapshots),
                           db.registry, db.prices, db.snapshots, result)
  {
    var _ := UpdateStockBasicData(db, env);
    RefreshIdempotent(old(db.registry), env);
    var stockCodes, codeList := ResolveAll(db, env, AllMembers(sectors));
    var updateResults := UpdateDailyDataBatch(db, env, codeList);
    BatchResultsAre(updateResults, env, codeList);
    ghost var prices1, snaps0 := db.prices, db.snapshots;
    result := BuildAndSaveSectors(db, env, stockCodes, updateResults, sectors);
    RefreshOutcomeOf(env, sectors, old(db.registry), old(db.prices), snaps0, db.registry, prices1, db.snapshots,
                     result, codeList);
  }

  lemma BatchResultsAre(results: map<string, bool>, env: Env, codes: seq<string>)
    requires results.Keys == set c | c in codes
    requires forall c :: c in results ==> results[c] == (!Aborted(env, codes) && CodeSucceeds(env, c))
    ensures results == BatchResults(env, codes)
  {
  }

  /** A refresh whose resolved codes were taken in the order `codeList`. */
  lemma RefreshOutcomeOf(env: Env, sectors: seq<Sector>,
                         reg0: seq<RegistryEntry>, prices0: seq<DailyBar>, snaps0: seq<Snapshot>,
                         reg1: seq<RegistryEntry>, prices1: seq<DailyBar>, snaps1: seq<Snapshot>,
                         result: seq<SectorData>, codeList: seq<string>)
    requires reg1 == RefreshedRegistry(reg0, env)
    requires var codes := CodeMap(reg1, env, AllMembers(sectors));
      && (forall c :: c in codeList <==> c in codes.Values)
      && prices1 == SavedPrices(prices0, env, ProcessedCodes(env, codeList))
      && result == BuildAll(prices1, codes, BatchResults(env, codeList), sectors, env)
      && snaps1 == snaps0 + SnapshotsOf(result, env.now)
    ensures RefreshOutcome(env, sectors, reg0, prices0, snaps0, reg1, prices1, snaps1, result)
  {
  }

  // ---------------------------------------------------------------- the cache coordinator

  /** The 30-minute lookup of every sector, in order. */
  function SectorLookups(snaps: seq<Snapshot>, names: seq<string>, now: int): (r: seq<Option<Cached>>)
    ensures |r| == |names|
    ensures forall i :: 0 <= i < |names| ==> r[i] == LatestSectorData(snaps, names[i], now, 30)
  {
    seq(|names|, i requires 0 <= i < |names| => LatestSectorData(snaps, names[i], now, 30))
  }

  /** The sectors of `names` whose lookups `found` hit, up to the first miss. */
  function TakeHits(names: seq<string>, found: seq<Option<Cached>>): (r: seq<SectorData>)
    requires |found| == |names|
    ensures |r| <= |names|
    ensures forall i :: 0 <= i < |r| ==> r[i].sector == names[i] && found[i].Some? && found[i].value.stocks == r[i].stocks
    ensures (forall i :: 0 <= i < |names| ==> found[i].Some?) ==> |r| == |names|
  {
    if names == [] then []
    else match found[0]
      case None => []
      case Some(c) => [SectorData(names[0], c.stocks)] + TakeHits(names[1..], found[1..])
  }

  /** The dictionary the cache scan of stock_data.py:421-433 has built: the sectors in order,
      up to the first whose lookup finds nothing. */
  function CachedPrefix(snaps: seq<Snapshot>, names: seq<string>, now: int): (r: seq<SectorData>)
    ensures |r| <= |names|
    ensures forall i :: 0 <= i < |r| ==>
      r[i].sector == names[i] && LatestSectorData(snaps, names[i], now, 30).Some?
      && LatestSectorData(snaps, names[i], now, 30).value.stocks == r[i].stocks
  {
    TakeHits(names, SectorLookups(snaps, names, now))
  }

  /** Every sector's lookup finds something: the "all fresh" test of stock_data.py:439. */
  predicate AllCached(snaps: seq<Snapshot>, names: seq<string>, now: int) {
    forall i :: 0 <= i < |names| ==> LatestSectorData(snaps, names[i], now, 30).Some?
  }

  /** The hits end at the first miss: when the lookups before `i` hit and the one at `i`
      misses (or `i` is the end), the hits are exactly the first `i` sectors. */
  lemma {:induction false} TakeHitsUpTo(names: seq<string>, found: seq<Option<Cached>>, i: nat)
    requires |found| == |names| && i <= |names|
    requires forall j :: 0 <= j < i ==> found[j].Some?
    requires i < |names| ==> found[i].None?
    ensures |TakeHits(names, found)| == i
  {
    if names != [] && i > 0 {
      assert forall j :: 0 <= j < i - 1 ==> found[1..][j] == found[j + 1];
      TakeHitsUpTo(names[1..], found[1..], i - 1);
    }
  }

  /** Where the scan stops, and what it has collected by then, is the cached prefix, and the
      scan ran to the end exactly when every lookup hit. */
  lemma ScanStopped(snaps: seq<Snapshot>, names: seq<string>, now: int, cached: seq<SectorData>, i: nat)
    requires i <= |names|
    requires var found := SectorLookups(snaps, names, now);
      && (forall j :: 0 <= j < i ==> found[j].Some?)
      && (i < |names| ==> found[i].None?)
      && |cached| == i
      && (forall j :: 0 <= j < i ==> cached[j] == SectorData(names[j], found[j].value.stocks))
    ensures cached == CachedPrefix(snaps, names, now)
    ensures i == |names| <==> AllCached(snaps, names, now)
  {
    TakeHitsUpTo(names, SectorLookups(snaps, names, now), i);
  }

  /** The cache scan with `break` at the first miss. */
  method ScanCache(db: Database, names: seq<string>, now: int) returns (cached: seq<SectorData>, allFresh: bool)
    ensures cached == CachedPrefix(db.snapshots, names, now)
    ensures allFresh == AllCached(db.snapshots, names, now)
  {
    ghost var found := SectorLookups(db.snapshots, names, now);
    cached, allFresh := [], true;
    var i := 0;
    while i < |names|
      invariant 0 <= i <= |names|
      invariant forall j :: 0 <= j < i ==> found[j].Some?
      invariant |cached| == i
      invariant forall j :: 0 <= j < i ==> cached[j] == SectorData(names[j], found[j].value.stocks)
    {
      var data := db.GetLatestSectorData(names[i], now, 30);
      assert data == found[i];
      if data.None? {
        allFresh := false;
        break;
      }
      cached := cached + [SectorData(names[i], data.value.stocks)];
      i := i + 1;
    }
    ScanStopped(db.snapshots, names, now, cached, i);
  }

  /** Some snapshot of `sector` has been saved. */
  predicate HasSnapshot(snaps: seq<Snapshot>, sector: string) {
    exists j :: 0 <= j < |snaps| && snaps[j].sector == sector
  }

  /** The "all fresh" branch is taken exactly when every sector has some snapshot, however
      old: the age limit never turns a sector away. */
  lemma AllCachedIff(snaps: seq<Snapshot>, names: seq<string>, now: int)
    ensures AllCached(snaps, names, now) <==> forall i :: 0 <= i < |names| ==> HasSnapshot(snaps, names[i])
  {
    forall i | 0 <= i < |names|
      ensures LatestSectorData(snaps, names[i], now, 30).Some? <==> HasSnapshot(snaps, names[i])
    {
      LatestNoneIff(snaps, names[i], now, 30);
    }
  }

  /** When every sector has a snapshot, the scan keeps them all, each the newest of its sector. */
  lemma CachedPrefixFull(snaps: seq<Snapshot>, names: seq<string>, now: int)
    requires AllCached(snaps, names, now)
    ensures |CachedPrefix(snaps, names, now)| == |names|
    ensures forall i :: 0 <= i < |names| ==>
      OfSector(snaps, names[i]) != [] && CachedPrefix(snaps, names, now)[i] == SectorData(names[i], Load(Newest(OfSector(snaps, names[i]))).stocks)
  {
    var r := CachedPrefix(snaps, names, now);
    assert |r| == |names|;
    forall i | 0 <= i < |names|
      ensures OfSector(snaps, names[i]) != [] && r[i] == SectorData(names[i], Load(Newest(OfSector(snaps, names[i]))).stocks)
    {
      LatestNoneIff(snaps, names[i], now, 30);
      LatestIsNewest(snaps, names[i], now, 30);
    }
  }

  /** Each cached list stamped with the score computed from it (stock_data.py:443-451). */
  function RescoreAll(d: seq<SectorData>): (r: seq<SectorData>)
    ensures |r| == |d|
  {
    seq(|d|, i requires 0 <= i < |d| => SectorData(d[i].sector, Stamp(d[i].stocks, SectorScore(d[i].stocks))))
  }

  /** Rescoring keeps every sector and record and makes every list consistent. */
  lemma RescoreAllConsistent(d: seq<SectorData>)
    ensures forall i :: 0 <= i < |d| ==>
      RescoreAll(d)[i].sector == d[i].sector && SameExceptScore(d[i].stocks, RescoreAll(d)[i].stocks)
      && Consistent(RescoreAll(d)[i].stocks)
  {
    forall i | 0 <= i < |d|
      ensures SameExceptScore(d[i].stocks, RescoreAll(d)[i].stocks) && Consistent(RescoreAll(d)[i].stocks)
    {
      var s := d[i].stocks;
      StampKeepsRecords(s, SectorScore(s));
      SectorScoreIgnoresScores(s, Stamp(s, SectorScore(s)));
    }
  }

  /** The two loops of stock_data.py:443-451: all scores first, then the stamping in place. */
  method Rescore(cached: seq<SectorData>) returns (r: seq<SectorData>)
    ensures r == RescoreAll(cached)
  {
    var scores := [];
    for i := 0 to |cached|
      invariant |scores| == i
      invariant forall j :: 0 <= j < i ==> scores[j] == SectorScore(cached[j].stocks)
    {
      scores := scores + [SectorScore(cached[i].stocks)];
    }
    r := cached;
    for i := 0 to |r|
      invariant |r| == |cached|
      invariant forall j :: 0 <= j < i ==> r[j] == RescoreAll(cached)[j]
      invariant forall j :: i <= j < |r| ==> r[j] == cached[j]
    {
      var stocks := StampScores(r[i].stocks, scores[i]);
      r := r[i := SectorData(r[i].sector, stocks)];
    }
  }

  /** `{sector: [] for sector in SECTORS}` (stock_data.py:467-469). */
  function EmptyResult(names: seq<string>): (r: seq<SectorData>)
    ensures |r| == |names| && forall i :: 0 <= i < |names| ==> r[i] == SectorData(names[i], [])
  {
    seq(|names|, i requires 0 <= i < |names| => SectorData(names[i], []))
  }

  /** Which of the ways out of `get_sector_comparison` was taken. */
  datatype Path = FromCache | Refreshed | PartialCache | EmptyFallback

  /** `get_sector_comparison(force_refresh)` (stock_data.py:416-471). `refreshRaises` says
      the refresh raises before it changes anything. */
  method GetSectorComparison(db: Database, env: Env, sectors: seq<Sector>, forceRefresh: bool, refreshRaises: bool)
    returns (result: seq<SectorData>, ghost path: Path)
    requires db.Valid()
    modifies db
    ensures db.Valid()
    ensures var names := Names(sectors);
      var cached := CachedPrefix(old(db.snapshots), names, env.now);
      var fromCache := !forceRefresh && AllCached(old(db.snapshots), names, env.now);
      && (path == FromCache <==> fromCache)
      && (path == Refreshed <==> !fromCache && !refreshRaises)
      && (path == PartialCache <==> !fromCache && refreshRaises && !forceRefresh && cached != [])
      && (path == EmptyFallback <==> !fromCache && refreshRaises && (forceRefresh || cached == []))
      && (path == FromCache ==> result == RescoreAll(cached))
      && (path == PartialCache ==> result == cached)
      && (path == EmptyFallback ==> result == EmptyResult(names))
      && (path == Refreshed ==> RefreshOutcome(env, sectors, old(db.registry), old(db.prices), old(db.snapshots),
                                               db.registry, db.prices, db.snapshots, result))
      && (path != Refreshed ==> db.registry == old(db.registry) && db.prices == old(db.prices)
                                && db.snapshots == old(db.snapshots))
  {
    var names := Names(sectors);
    var partial: seq<SectorData> := [];
    var allFresh := true;
    if !forceRefresh {
      partial, allFresh := ScanCache(db, names, env.now);
    } else {
      allFresh := false;
    }
    if allFresh {
      result := Rescore(partial);
      path := FromCache;
      return;
    }
    if refreshRaises {
      if partial != [] {
        result, path := partial, PartialCache;
      } else {
        result, path := EmptyResult(names), EmptyFallback;
      }
      return;
    }
    result := AllSectorStocksData(db, env, sectors);
    path := Refreshed;
  }
}
