/** The fetching half of stock_data.py: the registry refresh, name resolution, and the chunked
    batch update of daily bars. The data provider is an oracle held in `Env`. */
module StockData {
  import opened Common
  import opened Registry
  import opened DailyPrices
  import opened Db

  /** The two daily-bar endpoints of the provider. */
  datatype Endpoint = AShareDaily | HkDaily

  /** One provider call: it raises, or returns a frame of bars (possibly empty). */
  datatype Fetch = Raises | Rows(bars: seq<DailyBar>)

  /** Everything the pipeline takes from outside:
      - `basicInfo`: the merged basic-info frame a refresh would save, `None` when the A-share
        list is missing or the provider fails;
      - `respond`: the bars each endpoint returns for a code over the current window;
      - `storeFault`: for a code, the position in its fetched frame of the record whose save
        raises, if any;
      - `abortAt`: the position, in A-shares-then-HK order, at which the outer block of
        `update_daily_data_batch` raises, if it does;
      - `now` (seconds), `today` and `windowStart` (dates YYYYMMDD) of the one clock reading. */
  datatype Env = Env(
    basicInfo: Option<BasicFrame>,
    respond: (Endpoint, string) -> Fetch,
    storeFault: string -> Option<nat>,
    abortAt: Option<nat>,
    now: int,
    today: int,
    windowStart: int)

  // ---------------------------------------------------------------- registry refresh

  /** The registry after `update_stock_basic_data()` (stock_data.py:11-68). */
  function RefreshedRegistry(reg: seq<RegistryEntry>, env: Env): seq<RegistryEntry> {
    if env.basicInfo.Some? && env.basicInfo.value.rows != [] then Replaced(env.basicInfo.value, env.now) else reg
  }

  /** A second refresh with the same provider answers changes nothing. */
  lemma RefreshIdempotent(reg: seq<RegistryEntry>, env: Env)
    ensures RefreshedRegistry(RefreshedRegistry(reg, env), env) == RefreshedRegistry(reg, env)
  {
  }

  /** `update_stock_basic_data()`: save the merged frame, reporting whether it was saved. */
  method UpdateStockBasicData(db: Database, env: Env) returns (ok: bool)
    requires db.Valid()
    modifies db
    ensures db.Valid()
    ensures ok <==> env.basicInfo.Some? && env.basicInfo.value.rows != []
    ensures db.registry == RefreshedRegistry(old(db.registry), env)
    ensures db.prices == old(db.prices) && db.snapshots == old(db.snapshots)
  {
    ok := db.SaveStockBasic(env.basicInfo, env.now);
  }

  // ---------------------------------------------------------------- name resolution

  /** The seven variants of stock_data.py:79-87, in order. */
  function NameVariants(name: string): (r: seq<string>)
    ensures |r| == 7 && r[0] == name
  {
    [name, ReplaceAll(name, "集团", ""), ReplaceAll(name, "股份", ""), ReplaceAll(name, "有限公司", ""),
     ReplaceAll(name, "公司", ""), name + "集团", name + "股份"]
  }

  /** The first truthy code of a list of lookup results. */
  function FirstTruthy(xs: seq<Option<string>>): (r: Option<string>)
    ensures r.None? <==> forall i :: 0 <= i < |xs| ==> !Truthy(xs[i])
    ensures r.Some? ==> exists i :: 0 <= i < |xs| && r == xs[i] && Truthy(r)
                          && forall j :: 0 <= j < i ==> !Truthy(xs[j])
  {
    if xs == [] then None
    else if Truthy(xs[0]) then xs[0]
    else
      var r := FirstTruthy(xs[1..]);
      assert forall i :: 1 <= i < |xs| ==> xs[i] == xs[1..][i - 1];
      r
  }

  /** The first truthy entry is the one before which none is truthy. */
  lemma FirstTruthyAt(xs: seq<Option<string>>, i: nat)
    requires i < |xs| && Truthy(xs[i])
    requires forall j :: 0 <= j < i ==> !Truthy(xs[j])
    ensures FirstTruthy(xs) == xs[i]
  {
    var r := FirstTruthy(xs);
    var k :| 0 <= k < |xs| && r == xs[k] && Truthy(r) && forall j :: 0 <= j < k ==> !Truthy(xs[j]);
    assert k == i;
  }

  /** The lookup of each variant, in order. */
  function Lookups(reg: seq<RegistryEntry>, vs: seq<string>): (r: seq<Option<string>>)
    ensures |r| == |vs| && forall i :: 0 <= i < |vs| ==> r[i] == CodeLookup(reg, vs[i])
  {
    seq(|vs|, i requires 0 <= i < |vs| => CodeLookup(reg, vs[i]))
  }

  /** The first variant whose lookup gives a non-empty code, and that code. */
  function FirstHit(reg: seq<RegistryEntry>, vs: seq<string>): (r: Option<string>)
    ensures r.None? <==> forall i :: 0 <= i < |vs| ==> !Truthy(CodeLookup(reg, vs[i]))
    ensures r.Some? ==> exists i :: 0 <= i < |vs| && r == CodeLookup(reg, vs[i]) && Truthy(r)
                          && forall j :: 0 <= j < i ==> !Truthy(CodeLookup(reg, vs[j]))
  {
    FirstTruthy(Lookups(reg, vs))
  }

  /** The lookups before any refresh find a code. */
  predicate FoundBeforeRefresh(reg: seq<RegistryEntry>, name: string) {
    Truthy(CodeLookup(reg, name)) || FirstHit(reg, NameVariants(name)).Some?
  }

  /** What `get_stock_code(name)` returns (stock_data.py:70-115) on registry `reg`. */
  function ResolveCode(reg: seq<RegistryEntry>, env: Env, name: string): Option<string> {
    if Truthy(CodeLookup(reg, name)) then CodeLookup(reg, name)
    else if FirstHit(reg, NameVariants(name)).Some? then FirstHit(reg, NameVariants(name))
    else FirstHit(RefreshedRegistry(reg, env), NameVariants(name))
  }

  /** The registry after `get_stock_code(name)`: refreshed only when every lookup missed. */
  function RegistryAfterResolve(reg: seq<RegistryEntry>, env: Env, name: string): seq<RegistryEntry> {
    if FoundBeforeRefresh(reg, name) then reg else RefreshedRegistry(reg, env)
  }

  /** `get_stock_code` returns only non-empty codes, and `None` exactly when the direct lookup
      and every variant miss both before and after the refresh. */
  lemma ResolveCodeSpec(reg: seq<RegistryEntry>, env: Env, name: string)
    ensures var r := ResolveCode(reg, env, name);
      && (r.Some? ==> r.value != "")
      && (r.None? <==>
            && !Truthy(CodeLookup(reg, name))
            && (forall i :: 0 <= i < 7 ==> !Truthy(CodeLookup(reg, NameVariants(name)[i])))
            && (forall i :: 0 <= i < 7 ==> !Truthy(CodeLookup(RefreshedRegistry(reg, env), NameVariants(name)[i]))))
  {
  }

  /** On a registry a refresh would not change, resolution never changes it and needs only
      the first round of lookups. */
  lemma ResolveOnRefreshed(reg: seq<RegistryEntry>, env: Env, name: string)
    requires RefreshedRegistry(reg, env) == reg
    ensures RegistryAfterResolve(reg, env, name) == reg
    ensures ResolveCode(reg, env, name) ==
      (if Truthy(CodeLookup(reg, name)) then CodeLookup(reg, name) else FirstHit(reg, NameVariants(name)))
  {
  }

  /** One pass of the variant loop (stock_data.py:89-93, 104-108): the first hit, if any. */
  method TryVariants(db: Database, variations: seq<string>) returns (code: Option<string>)
    ensures code == FirstHit(db.registry, variations)
  {
    var i := 0;
    while i < |variations|
      invariant 0 <= i <= |variations|
      invariant forall j :: 0 <= j < i ==> !Truthy(CodeLookup(db.registry, variations[j]))
    {
      code := db.StockCodeFromDb(variations[i]);
      if Truthy(code) {
        FirstTruthyAt(Lookups(db.registry, variations), i);
        return;
      }
      i := i + 1;
    }
    return None;
  }

  /** `get_stock_code(name)`: one direct lookup, the variants in order, one refresh once they
      have all missed, then the variants again. */
  method GetStockCode(db: Database, env: Env, name: string) returns (code: Option<string>)
    requires db.Valid()
    modifies db
    ensures db.Valid()
    ensures code == ResolveCode(old(db.registry), env, name)
    ensures db.registry == RegistryAfterResolve(old(db.registry), env, name)
    ensures db.prices == old(db.prices) && db.snapshots == old(db.snapshots)
  {
    code := db.StockCodeFromDb(name);
    if Truthy(code) {
      return;
    }
    var variations := NameVariants(name);
    code := TryVariants(db, variations);
    if code.Some? {
      return;
    }
    var _ := UpdateStockBasicData(db, env);
    code := TryVariants(db, variations);
  }

  // ---------------------------------------------------------------- batch update

  /** `code.endswith('.HK')` decides the endpoint (stock_data.py:145-146). */
  function EndpointOf(code: string): Endpoint {
    if EndsWith(code, ".HK") then HkDaily else AShareDaily
  }

  /** The A-share codes, in input order. */
  function AShareCodes(codes: seq<string>): (r: seq<string>)
    ensures forall c :: c in r <==> c in codes && EndpointOf(c) == AShareDaily
  {
    if codes == [] then []
    else
      var init := AShareCodes(codes[..|codes| - 1]);
      assert forall c :: c in codes <==> c in codes[..|codes| - 1] || c == codes[|codes| - 1];
      if EndpointOf(codes[|codes| - 1]) == AShareDaily then init + [codes[|codes| - 1]] else init
  }

  /** The HK codes, in input order. */
  function HkCodes(codes: seq<string>): (r: seq<string>)
    ensures forall c :: c in r <==> c in codes && EndpointOf(c) == HkDaily
  {
    if codes == [] then []
    else
      var init := HkCodes(codes[..|codes| - 1]);
      assert forall c :: c in codes <==> c in codes[..|codes| - 1] || c == codes[|codes| - 1];
      if EndpointOf(codes[|codes| - 1]) == HkDaily then init + [codes[|codes| - 1]] else init
  }

  /** The order in which the codes are processed: all A-shares, then all HK codes. */
  function Ordered(codes: seq<string>): (r: seq<string>)
    ensures |r| == |codes|
  {
    GroupsLength(codes);
    AShareCodes(codes) + HkCodes(codes)
  }

  /** Splitting keeps the input order inside each group: it distributes over concatenation. */
  lemma {:induction false} SplitKeepsOrder(a: seq<string>, b: seq<string>)
    ensures AShareCodes(a + b) == AShareCodes(a) + AShareCodes(b)
    ensures HkCodes(a + b) == HkCodes(a) + HkCodes(b)
  {
    if b != [] {
      var b' := b[..|b| - 1];
      assert (a + b)[..|a + b| - 1] == a + b';
      assert (a + b)[|a + b| - 1] == b[|b| - 1];
      SplitKeepsOrder(a, b');
    } else {
      assert a + b == a;
    }
  }

  /** Every code is processed once: the two groups together are as long as the input. */
  lemma {:induction false} GroupsLength(codes: seq<string>)
    ensures |AShareCodes(codes)| + |HkCodes(codes)| == |codes|
  {
    if codes != [] {
      GroupsLength(codes[..|codes| - 1]);
    }
  }

  /** The outcome of one code's fetch and save (stock_data.py:170-190, 201-222). */
  function CodeSucceeds(env: Env, code: string): bool {
    match env.respond(EndpointOf(code), code)
    case Raises => false
    case Rows(bars) => bars != [] && (env.storeFault(code).None? || env.storeFault(code).value >= |bars|)
  }

  /** The bars table after one code's fetch and save. */
  function SaveEffect(prices: seq<DailyBar>, env: Env, code: string): seq<DailyBar> {
    match env.respond(EndpointOf(code), code)
    case Raises => prices
    case Rows(bars) => if CodeSucceeds(env, code) then UpsertAll(prices, bars) else prices
  }

  /** The bars table after the codes have been processed in order. */
  function SavedPrices(prices: seq<DailyBar>, env: Env, codes: seq<string>): seq<DailyBar> {
    if codes == [] then prices
    else SaveEffect(SavedPrices(prices, env, codes[..|codes| - 1]), env, codes[|codes| - 1])
  }

  /** The `results` dictionary after `results[code] = ...` for each processed code in order. */
  function Recorded(m: map<string, bool>, env: Env, codes: seq<string>): map<string, bool> {
    if codes == [] then m
    else Recorded(m, env, codes[..|codes| - 1])[codes[|codes| - 1] := CodeSucceeds(env, codes[|codes| - 1])]
  }

  /** After the loop every processed code is a key holding its own outcome; other keys keep
      their values. */
  lemma {:induction false} RecordedSpec(m: map<string, bool>, env: Env, codes: seq<string>)
    ensures Recorded(m, env, codes).Keys == m.Keys + (set c | c in codes)
    ensures forall c :: c in Recorded(m, env, codes) ==>
      Recorded(m, env, codes)[c] == if c in codes then CodeSucceeds(env, c) else m[c]
  {
    if codes != [] {
      var init := codes[..|codes| - 1];
      assert forall c :: c in codes <==> c in init || c == codes[|codes| - 1];
      RecordedSpec(m, env, init);
    }
  }

  /** The outer block raises inside the segment of `n` codes starting at position `offset`. */
  predicate AbortsWithin(abortAt: Option<nat>, offset: nat, n: nat) {
    abortAt.Some? && offset <= abortAt.value < offset + n
  }

  /** How many codes of that segment are processed. */
  function Stop(abortAt: Option<nat>, offset: nat, n: nat): (k: nat)
    ensures k <= n
  {
    if AbortsWithin(abortAt, offset, n) then abortAt.value - offset else n
  }

  /** One code: fetch from its endpoint, skip an empty frame, save the rest. */
  method ProcessCode(db: Database, env: Env, code: string, endpoint: Endpoint) returns (ok: bool)
    requires db.Valid()
    requires EndpointOf(code) == endpoint
    modifies db
    ensures db.Valid()
    ensures ok == CodeSucceeds(env, code)
    ensures db.prices == SaveEffect(old(db.prices), env, code)
    ensures db.registry == old(db.registry) && db.snapshots == old(db.snapshots)
  {
    match env.respond(endpoint, code)
    case Raises =>
      ok := false;
    case Rows(bars) =>
      if bars == [] {
        ok := false;
      } else {
        var inserted, updated;
        ok, inserted, updated := db.SaveDailyPrice(Some(bars), env.storeFault(code));
      }
  }

  /** Extending the processed codes by one extends the table by that code's effect. */
  lemma SavedSnoc(prices: seq<DailyBar>, env: Env, seg: seq<string>, k: nat)
    requires k < |seg|
    ensures SavedPrices(prices, env, seg[..k + 1]) == SaveEffect(SavedPrices(prices, env, seg[..k]), env, seg[k])
  {
    assert seg[..k + 1][..k] == seg[..k];
  }

  lemma RecordedSnoc(m: map<string, bool>, env: Env, seg: seq<string>, k: nat)
    requires k < |seg|
    ensures Recorded(m, env, seg[..k + 1]) == Recorded(m, env, seg[..k])[seg[k] := CodeSucceeds(env, seg[k])]
  {
    assert seg[..k + 1][..k] == seg[..k];
  }

  /** One chunk `seg[lo..hi]` of a group, continuing from the state after `seg[..lo]`. */
  method ProcessChunk(db: Database, env: Env, seg: seq<string>, endpoint: Endpoint, offset: nat, lo: nat, hi: nat,
                      ghost prices0: seq<DailyBar>, results0: map<string, bool>, resultsIn: map<string, bool>)
    returns (results: map<string, bool>, aborted: bool)
    requires db.Valid()
    requires lo <= hi <= |seg|
    requires forall c :: c in seg ==> EndpointOf(c) == endpoint
    requires !AbortsWithin(env.abortAt, offset, lo)
    requires db.prices == SavedPrices(prices0, env, seg[..lo])
    requires resultsIn == Recorded(results0, env, seg[..lo])
    modifies db
    ensures db.Valid()
    ensures aborted <==> AbortsWithin(env.abortAt, offset, hi)
    ensures db.prices == SavedPrices(prices0, env, seg[..Stop(env.abortAt, offset, hi)])
    ensures results == Recorded(results0, env, seg[..Stop(env.abortAt, offset, hi)])
    ensures db.registry == old(db.registry) && db.snapshots == old(db.snapshots)
  {
    results := resultsIn;
    var i := lo;
    while i < hi
      invariant lo <= i <= hi
      invariant db.Valid()
      invariant !AbortsWithin(env.abortAt, offset, i)
      invariant db.prices == SavedPrices(prices0, env, seg[..i])
      invariant results == Recorded(results0, env, seg[..i])
      invariant db.registry == old(db.registry) && db.snapshots == old(db.snapshots)
    {
      if env.abortAt == Some(offset + i) {
        return results, true;
      }
      var code := seg[i];
      var ok := ProcessCode(db, env, code, endpoint);
      results := results[code := ok];
      SavedSnoc(prices0, env, seg, i);
      RecordedSnoc(results0, env, seg, i);
      i := i + 1;
    }
    aborted := false;
  }

  /** The chunk loops of one group (stock_data.py:166-190 and 197-222), `chunkSize` codes at a
      time. The result does not depend on `chunkSize`. */
  method ProcessGroup(db: Database, env: Env, seg: seq<string>, endpoint: Endpoint, chunkSize: nat,
                      offset: nat, results0: map<string, bool>)
    returns (results: map<string, bool>, aborted: bool)
    requires db.Valid()
    requires chunkSize > 0
    requires forall c :: c in seg ==> EndpointOf(c) == endpoint
    modifies db
    ensures db.Valid()
    ensures aborted <==> AbortsWithin(env.abortAt, offset, |seg|)
    ensures db.prices == SavedPrices(old(db.prices), env, seg[..Stop(env.abortAt, offset, |seg|)])
    ensures results == Recorded(results0, env, seg[..Stop(env.abortAt, offset, |seg|)])
    ensures db.registry == old(db.registry) && db.snapshots == old(db.snapshots)
  {
    ghost var prices0 := db.prices;
    results := results0;
    var lo := 0;
    while lo < |seg|
      invariant lo <= |seg|
      invariant db.Valid()
      invariant !AbortsWithin(env.abortAt, offset, lo)
      invariant db.prices == SavedPrices(prices0, env, seg[..lo])
      invariant results == Recorded(results0, env, seg[..lo])
      invariant db.registry == old(db.registry) && db.snapshots == old(db.snapshots)
      decreases |seg| - lo
    {
      var hi := if lo + chunkSize < |seg| then lo + chunkSize else |seg|;
      var chunkAborted;
      results, chunkAborted := ProcessChunk(db, env, seg, endpoint, offset, lo, hi, prices0, results0, results);
      if chunkAborted {
        assert Stop(env.abortAt, offset, |seg|) == Stop(env.abortAt, offset, hi);
        return results, true;
      }
      lo := hi;
    }
    aborted := false;
  }

  /** The outer block raised somewhere: `update_daily_data_batch` answers False for all codes. */
  predicate Aborted(env: Env, codes: seq<string>) {
    env.abortAt.Some? && env.abortAt.value < |codes|
  }

  /** How many codes, in processing order, are processed before the outer block raises. */
  function Processed(env: Env, n: nat): (k: nat)
    ensures k <= n
  {
    Stop(env.abortAt, 0, n)
  }

  /** The codes, in processing order, that are processed before the outer block raises. */
  function ProcessedCodes(env: Env, codes: seq<string>): seq<string> {
    Ordered(codes)[..Processed(env, |codes|)]
  }

  /** Both groups in turn, the HK group's positions following the A-share group's. */
  method ProcessBothGroups(db: Database, env: Env, a: seq<string>, h: seq<string>)
    returns (results: map<string, bool>, aborted: bool)
    requires db.Valid()
    requires forall c :: c in a ==> EndpointOf(c) == AShareDaily
    requires forall c :: c in h ==> EndpointOf(c) == HkDaily
    modifies db
    ensures db.Valid()
    ensures aborted <==> AbortsWithin(env.abortAt, 0, |a| + |h|)
    ensures db.prices == SavedPrices(old(db.prices), env, (a + h)[..Processed(env, |a| + |h|)])
    ensures !aborted ==> results == Recorded(Recorded(map[], env, a), env, h)
    ensures db.registry == old(db.registry) && db.snapshots == old(db.snapshots)
  {
    results, aborted := map[], false;
    if a != [] {
      results, aborted := ProcessGroup(db, env, a, AShareDaily, 50, 0, results);
      if aborted {
        assert (a + h)[..Processed(env, |a| + |h|)] == a[..Stop(env.abortAt, 0, |a|)];
        return;
      }
      assert a[..|a|] == a;
    }
    assert db.prices == SavedPrices(old(db.prices), env, a);
    ghost var afterA := db.prices;
    if h != [] {
      results, aborted := ProcessGroup(db, env, h, HkDaily, 30, |a|, results);
      var k := Stop(env.abortAt, |a|, |h|);
      SavedPricesAppend(old(db.prices), env, a, h[..k]);
      assert (a + h)[..Processed(env, |a| + |h|)] == a + h[..k];
      assert h[..|h|] == h;
    } else {
      assert (a + h)[..Processed(env, |a| + |h|)] == a;
    }
  }

  /** `update_daily_data_batch(codes)` (stock_data.py:137-228). */
  method UpdateDailyDataBatch(db: Database, env: Env, codes: seq<string>) returns (results: map<string, bool>)
    requires db.Valid()
    modifies db
    ensures db.Valid()
    ensures results.Keys == set c | c in codes
    ensures forall c :: c in results ==> results[c] == (!Aborted(env, codes) && CodeSucceeds(env, c))
    ensures db.prices == SavedPrices(old(db.prices), env, ProcessedCodes(env, codes))
    ensures db.registry == old(db.registry) && db.snapshots == old(db.snapshots)
  {
    if codes == [] {
      return map[];
    }
    var aCodes := AShareCodes(codes);
    var hkCodes := HkCodes(codes);
    GroupsLength(codes);
    var aborted;
    results, aborted := ProcessBothGroups(db, env, aCodes, hkCodes);
    if aborted {
      return map c | c in codes :: false;
    }
    RecordedAll(env, aCodes, hkCodes, codes, results);
  }

  lemma {:induction false} SavedPricesAppend(prices: seq<DailyBar>, env: Env, a: seq<string>, b: seq<string>)
    ensures SavedPrices(prices, env, a + b) == SavedPrices(SavedPrices(prices, env, a), env, b)
  {
    if b == [] {
      assert a + b == a;
    } else {
      var b' := b[..|b| - 1];
      assert (a + b)[..|a + b| - 1] == a + b';
      assert (a + b)[|a + b| - 1] == b[|b| - 1];
      SavedPricesAppend(prices, env, a, b');
    }
  }

  lemma RecordedAll(env: Env, a: seq<string>, h: seq<string>, codes: seq<string>, results: map<string, bool>)
    requires forall c :: c in a <==> c in codes && EndpointOf(c) == AShareDaily
    requires forall c :: c in h <==> c in codes && EndpointOf(c) == HkDaily
    requires results == Recorded(Recorded(map[], env, a), env, h)
    ensures results.Keys == set c | c in codes
    ensures forall c :: c in results ==> results[c] == CodeSucceeds(env, c)
  {
    RecordedSpec(map[], env, a);
    RecordedSpec(Recorded(map[], env, a), env, h);
    forall c | c in codes ensures c in a || c in h {
      if EndpointOf(c) == AShareDaily { assert c in a; } else { assert c in h; }
    }
  }

  /** `update_daily_data(code)` (stock_data.py:117-135): the batch on the one code. */
  method UpdateDailyData(db: Database, env: Env, code: string) returns (ok: bool)
    requires db.Valid()
    modifies db
    ensures db.Valid()
    ensures ok == (env.abortAt != Some(0) && CodeSucceeds(env, code))
    ensures db.prices == (if env.abortAt == Some(0) then old(db.prices) else SaveEffect(old(db.prices), env, code))
    ensures db.registry == old(db.registry) && db.snapshots == old(db.snapshots)
  {
    var results := UpdateDailyDataBatch(db, env, [code]);
    assert code in [code];
    ok := if code in results then results[code] else false;
    assert Ordered([code]) == [code] by {
      assert code in Ordered([code]);
    }
    assert [code][..1] == [code];
    assert [code][..0] == [];
  }
}
