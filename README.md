# stocktool core, modelled in Dafny

stocktool is a small Flask application. It tracks how far the stocks of a fixed set of
industry sectors have fallen from their recent peak. The tool works in four steps:

1. It keeps a registry of listed A-share and Hong Kong stocks (`stock_basic`).
2. It resolves the member names of each sector to exchange codes.
3. It fetches about four months of daily bars per code from a market-data provider into
   `daily_prices`.
4. For each member it computes the latest price, the window's peak, its volume and its drop
   from the peak.

A sector's score is the mean absolute drop of its members. Every sector's records are saved
as one JSON snapshot in `sector_data`. A 30-minute snapshot cache fronts later requests. The
web layer keeps a global initialisation status and shapes the sector data into a JSON
response, with the sectors sorted by score.

The model follows the program's structure:

| Model file | What it holds |
|---|---|
| `common.dfy` | Option, and the Python string operations that are used (`startswith`, `endswith`, `in`, `replace`, `strip`) |
| `records.dfy` | the per-stock record dictionary |
| `registry.dfy` | the `stock_basic` table: replacement and the exact-then-LIKE name lookup |
| `daily_prices.dfy` | the `daily_prices` table: the upsert, the range query and the freshness count |
| `snapshots.dfy` | the `sector_data` log and its latest-snapshot lookup |
| `db.dfy` | the database as a `class Database` whose three fields are the three tables |
| `hk_stock_utils.dfy` | the Hong Kong helpers |
| `metrics.dfy` | the drop percentage, the sector score and the per-member metrics |
| `stock_data.dfy` | registry refresh, name resolution and the chunked batch update |
| `stock_data_sectors.dfy` | the all-sector aggregation and the cache coordinator |
| `app.dfy` | `class InitStatus` for the status record, and the response shaping |

Representation choices:

- Tables are sequences of rows in insertion order.
- A trade date is the integer YYYYMMDD.
- A fetch time is an integer count of seconds on one clock.
- Prices are `real`s.
- The provider, the clock and the faults the code catches are one `Env` value, passed in.

The functions that change state are imperative methods. Each method states every table's
new value in terms of pure functions, and lemmas prove the program's promises about those
functions.

Where the program's own text and its code disagree, the model follows the code. The
docstring of `get_latest_sector_data` (db.py:264) promises sector data only "if it's fresh
enough". The code instead falls back to the newest snapshot of any age (db.py:280-289). `LatestIsNewest`,
`LatestIgnoresMaxAge` and `AllCachedIff` prove what that fallback means: the age limit never
changes an answer.

## Model

| member | source | states |
|---|---|---|
| Registry.Replaced | db.py:67-77 | The table after `save_stock_basic` holds exactly the frame's rows, in order. Each row is stamped with the save time. `market` defaults to "CN" when the frame has no such column. Nothing of the old table survives. |
| Registry.ExactCode | db.py:113-118 | The exact query gives nothing iff no row has the name; otherwise it gives the code of the first row with that name. |
| Registry.Matching | db.py:128 | A LIKE pattern selects exactly the table rows matching it: every row it returns matches, and every matching row is returned. The result is empty iff no row matches. |
| Registry.MatchingFirst | db.py:128 | The selected rows come in table order: the first is the table's first matching row. |
| Registry.Candidates | db.py:128-131 | The `LIMIT 5` candidate list of one pattern. Its meaning is stated by Registry.CandidatesSpec, over Registry.Matching. |
| Registry.CandidatesSpec | db.py:128-131 | `LIMIT 5` gives at most five matching rows. It gives none iff no row matches, and fewer than five only when all matching rows are in it. Its first row is the table's first matching row. |
| Registry.FirstPreferred | db.py:133-142 | The scan stops at the first candidate named exactly `q` or starting with `q`; none before it qualifies. |
| Registry.FirstPreferredIs | db.py:133-142 | A position before which no candidate is preferred, and which is preferred (or the end), is the one the scan stops at. |
| Registry.PickCandidate | db.py:131-148 | From a non-empty candidate list, the choice is the first candidate named exactly `q` or starting with `q`. When none is, the choice is the first candidate. |
| Registry.ExactIsLike | db.py:113-125 | A row named exactly `q` also matches `%q%`. |
| Registry.PrefixAndSuffixAreLike | db.py:121-125 | Whatever `q%` or `%q` matches, `%q%` matches too. |
| Registry.ContainsPatternDecides | db.py:121-148 | The lookup equals the exact query followed by the `%q%` pattern alone: the second and third patterns are never reached with a match. |
| Registry.FuzzyCode | db.py:121-148 | The fuzzy stage: the first pattern with any candidate decides, through the pick. Its meaning is stated by Registry.ContainsPatternDecides, Registry.CodeLookupNoneIff and Registry.PickCandidate. |
| Registry.CodeLookup | db.py:107-151 | `get_stock_code_from_db` on the table. Its meaning is stated by Registry.CodeLookupNoneIff, Registry.CodeLookupPrefersExact and Registry.ContainsPatternDecides; Db.Database.StockCodeFromDb is proved equal to it. |
| Registry.CodeLookupNoneIff | db.py:107-151 | `get_stock_code_from_db` returns None exactly when no registry name contains the query, with ASCII letters folded as SQLite's LIKE does. |
| Registry.CodeLookupPrefersExact | db.py:112-118 | When some row is named exactly `q`, the first such row's code is returned, whatever the fuzzy patterns would find. |
| DailyPrices.FindKey | db.py:171-175 | The existence query finds a row holding the key; when it finds none, no row holds it. |
| DailyPrices.LastValues | db.py:169-204 | The values a batch leaves for a key are absent exactly when no record of the batch has that key. |
| DailyPrices.UpsertOne | db.py:169-204 | One record of the upsert loop. Its meaning is stated by DailyPrices.UpsertOneSpec. |
| DailyPrices.UpsertAll | db.py:169-204 | The table after the upsert loop over a batch. Its meaning is stated by DailyPrices.UpsertAllSpec, DailyPrices.UpsertExactlyOne, DailyPrices.UpsertIdempotent and DailyPrices.UpsertAllSnoc. |
| DailyPrices.UpsertAllSnoc | db.py:169-204 | One more record is one more upsert, and it adds a row exactly when its key is not yet in the table. |
| DailyPrices.UpsertOneSpec | db.py:169-204 | One upserted record keeps the keys unique. The table grows by at most one row. Existing rows keep their keys, and rows with other keys are untouched. The record's key then holds exactly the record. |
| DailyPrices.UpsertAllSpec | db.py:153-214 | After a batch the keys stay unique. Every batch key has a row holding the values of the batch's last record with that key. Rows with keys outside the batch are unchanged in place, and new rows carry only batch keys. |
| DailyPrices.UpsertExactlyOne | db.py:169-204 | Each key of a saved batch is held by exactly one row, and that row carries the key's last values. |
| DailyPrices.UpsertIdempotent | db.py:153-214 | Saving the same batch twice leaves the table as saving it once. |
| DailyPrices.Select | db.py:220-229 | The WHERE clause keeps exactly the rows of the code within the given bounds; a missing bound is not applied. It preserves unique keys. |
| DailyPrices.InsertDesc | db.py:231 | Inserting into the ordered list adds exactly that row: the multiset of rows gains it once. |
| DailyPrices.InsertDescSorted | db.py:231 | Insertion keeps the list in descending `trade_date` order. |
| DailyPrices.SortDesc | db.py:231 | `ORDER BY trade_date DESC` returns a permutation of the rows it was given: the same multiset, so the same rows as often as they occur. |
| DailyPrices.SortDescSpec | db.py:231 | The ordered rows are in descending date order, and keep unique keys. |
| DailyPrices.SortedSelectionStrict | db.py:220-231 | The rows of one code, ordered, never share a date: the order is strictly descending. |
| DailyPrices.QueryPrices | db.py:216-240 | `get_daily_prices` on the table: select, order, limit. Its meaning is stated by DailyPrices.QueryPricesSound and DailyPrices.QueryPricesComplete. |
| DailyPrices.QueryPricesSound | db.py:216-240 | The query returns only rows of the code within the bounds, newest first, and at most a positive limit of them. On a table with unique keys no two returned rows share a date. |
| DailyPrices.QueryPricesComplete | db.py:216-240 | On a table with unique keys every matching row is returned, unless a positive limit was reached and the row is older than the oldest row returned. |
| DailyPrices.CountRecent | db.py:312-317 | The count is positive iff some row of the code is dated on or after the cutoff. |
| DailyPrices.IsDataFresh | db.py:304-320 | `is_data_fresh` holds iff some bar of the code is dated on or after the cutoff date. |
| Snapshots.OfSectorSpec | db.py:273-286 | `WHERE sector = ?` keeps exactly the saved snapshots of that sector. |
| Snapshots.FreshOnlySpec | db.py:273-276 | `fetch_time > ?` keeps exactly the snapshots strictly newer than the cutoff. |
| Snapshots.NewestSpec | db.py:273-286 | `ORDER BY fetch_time DESC LIMIT 1` picks one of the rows, and no row is newer. |
| Snapshots.NewestOfFresh | db.py:270-286 | When some snapshot is newer than the cutoff, the fresh query finds one, and it is the newest snapshot overall. |
| Snapshots.LatestSectorData | db.py:263-299 | `get_latest_sector_data` on the table. Its meaning is stated by Snapshots.LatestNoneIff, Snapshots.LatestIsNewest, Snapshots.LatestIgnoresMaxAge and Snapshots.LatestAfterSave. |
| Snapshots.LatestNoneIff | db.py:263-299 | `get_latest_sector_data` finds nothing exactly when no snapshot of the sector was ever saved. |
| Snapshots.LatestIsNewest | db.py:270-298 | Whenever a snapshot of the sector exists, the lookup returns the newest one of any age, decoded (an undecodable payload as an empty list), with its fetch time. |
| Snapshots.LatestIgnoresMaxAge | db.py:263-299 | The answer never depends on `max_age_minutes`. |
| Snapshots.LatestAfterSave | db.py:246-299 | A snapshot saved later than every earlier one of its sector is what the next lookup returns. |
| Db.Database.constructor | db.py:10-57 | A new database has three empty tables, and its bar keys are unique. |
| Db.Database.SaveStockBasic | db.py:59-94 | An absent or empty frame is refused and nothing changes. Otherwise `stock_basic` becomes `Replaced(frame, now)` and the other two tables are untouched. |
| Db.Database.StockCodeFromDb | db.py:107-151 | The code lookup (exact query, then each pattern in turn with its preferred pick) computes `CodeLookup`, whose properties are the Registry lemmas. |
| Db.Database.PickFrom | db.py:133-148 | The candidate loop returns `PickCandidate`: the first preferred candidate, else the first. |
| Db.Database.SaveDailyPrice | db.py:153-214 | The save succeeds iff the frame is non-empty and no record's statement raises. On success the table is the upsert of the batch, with unique keys kept. On failure the transaction rolls back and the table is as before. The two counters add up to the batch size, and `inserted` equals the growth of the table. |
| Db.Database.UpsertBatch | db.py:163-209 | The record loop succeeds iff no statement raises. It then holds the upsert of the whole batch, with new plus updated equal to the batch size and new equal to the table's growth. |
| Db.Database.SaveSectorData | db.py:246-261 | One snapshot of the sector, with the records and the save time, is appended. The other tables are untouched. |
| Db.Database.GetDailyPrices | db.py:216-240 | `get_daily_prices` on the `daily_prices` table: only rows of the code within the bounds, at most a positive limit of them. While the keys are unique they are strictly newest first, and every matching row is returned unless the limit cut it off as older than the last one returned. As DailyPrices.QueryPricesSound and DailyPrices.QueryPricesComplete. |
| Db.Database.GetLatestSectorData | db.py:263-299 | `get_latest_sector_data` on the `sector_data` table: nothing iff the sector has no snapshot, otherwise the newest snapshot of the sector, of any age, decoded. As Snapshots.LatestNoneIff and Snapshots.LatestIsNewest. |
| Db.Database.GetIsDataFresh | db.py:304-320 | `is_data_fresh` on the `daily_prices` table: true iff some bar of the code is dated on or after the cutoff. As DailyPrices.IsDataFresh. |
| HkStockUtils.NameVariations | hk_stock_utils.py:5-34 | The result contains the name, has no duplicates, and holds exactly these strings: the name; the name plus each suffix it lacks; the name minus each suffix it has; the stripped name without each company word it contains (when not empty); the name plus each company word it lacks. |
| HkStockUtils.AddSuffixed | hk_stock_utils.py:7-15 | After the first loop the list holds exactly the name and the name plus each suffix it does not end with. |
| HkStockUtils.AddBases | hk_stock_utils.py:17-22 | The second loop adds exactly the base names for the suffixes the name ends with. |
| HkStockUtils.AddCompanyWords | hk_stock_utils.py:24-32 | The third loop adds exactly the word-removed and word-added variants. |
| HkStockUtils.Dedup | hk_stock_utils.py:34 | `list(set(...))` keeps every member once and adds none. |
| HkStockUtils.IsHkStockCode | hk_stock_utils.py:36-38 | Read as a truth value, the test holds iff the code is present and ends with `.HK`. |
| HkStockUtils.FormatHkVolume | hk_stock_utils.py:40-47 | The volume is returned unchanged, None for None. |
| HkStockUtils.HkMarketStatus | hk_stock_utils.py:49-71 | A trading day is Monday to Friday. Trading hours run from 09:30:00 to 16:00:00.000000, both ends included. The market is open iff both hold. |
| Metrics.DropPercentage | stock_data.py:392-398 | The drop is absent iff a price is missing or the peak is 0. Otherwise drop × peak = (current − peak) × 100. |
| Metrics.DropOfEightyFromHundred | stock_data.py:392-398 | A price of 80 against a peak of 100 is a drop of −20. |
| Metrics.DropIsNonPositive | stock_data.py:392-398 | Against a positive peak, a price at or below it gives a drop ≤ 0, and a non-negative price gives a drop ≥ −100. |
| Metrics.DropCount | stock_data.py:406-409 | The number of records with a drop is at most the number of records. |
| Metrics.DropSum | stock_data.py:406-409 | The sum of absolute drops is non-negative. |
| Metrics.SectorScore | stock_data.py:400-414 | The score is non-negative. It is 0 when no record has a drop. Otherwise it is the mean: score × count = sum of absolute drops. |
| Metrics.DropSumBounded | stock_data.py:406-413 | When every absolute drop is at most a bound, their sum is at most count times that bound. |
| Metrics.SectorScoreBounded | stock_data.py:400-414 | The score is at most the largest absolute drop. |
| Metrics.SectorScoreIgnoresScores | stock_data.py:400-414 | The score reads only the drops: lists that differ only in `sector_score` have the same score. |
| Metrics.StampKeepsRecords | stock_data.py:370-371 | Stamping a score changes nothing but `sector_score`. |
| Metrics.FirstPeak | stock_data.py:316 | `idxmax` gives a position of the largest `high`, and no earlier position reaches it. |
| Metrics.MaxOf | stock_data.py:321 | `Series.max()` is an element of the list and at least every element. |
| Metrics.Ascending | stock_data.py:315 | `sort_values('trade_date')` keeps the same bars and orders them by ascending date. |
| Metrics.Peak | stock_data.py:315-318 | The peak bar is in the window and has the largest `high`. Among the bars with that high, it has the earliest date. |
| Metrics.MaxVolume | stock_data.py:321 | The largest volume is some bar's volume, and no bar's volume exceeds it. |
| Metrics.MaxPctChg | stock_data.py:339-340 | The largest daily change is some bar's change, and no bar's change exceeds it. |
| Metrics.VolumeRatio | stock_data.py:324 | With a positive maximum volume, ratio × max = latest × 100; otherwise the ratio is 0. |
| Metrics.MemberMetrics | stock_data.py:305-357 | The record carries the member's name and code and no score yet. |
| Metrics.MemberMetricsSpec | stock_data.py:305-357 | The record holds the latest bar's close and volume, and the window's largest high. Its date is that of the earliest bar reaching the high, capped at today. It also holds the window's largest volume and change, the volume ratio, and the drop of the latest close from the peak. |
| Records.Stamp | stock_data.py:370-371 | Stamping sets `sector_score` on every record, in place, and changes nothing else. |
| StockData.RefreshIdempotent | stock_data.py:11-68 | A second registry refresh with the same provider answers changes nothing. |
| StockData.UpdateStockBasicData | stock_data.py:11-68 | The refresh succeeds iff the merged frame is present and non-empty. The registry becomes the refreshed registry, and the bars and snapshots are untouched. |
| StockData.NameVariants | stock_data.py:79-87 | Seven variants, the first being the name itself. |
| StockData.FirstTruthy | stock_data.py:89-93 | The first truthy lookup result, or None iff none is truthy. |
| StockData.FirstTruthyAt | stock_data.py:89-93 | A truthy entry before which none is truthy is the one returned. |
| StockData.Lookups | stock_data.py:89-90 | One lookup per variant, in order. |
| StockData.FirstHit | stock_data.py:89-93 | The variant loop returns the code of the first variant whose lookup is non-empty, and None iff every lookup misses. |
| StockData.ResolveCode | stock_data.py:70-115 | What `get_stock_code` returns. Its meaning is stated by StockData.ResolveCodeSpec and StockData.ResolveOnRefreshed; StockData.GetStockCode is proved equal to it. |
| StockData.ResolveCodeSpec | stock_data.py:70-115 | `get_stock_code` returns only non-empty codes. It returns None exactly when the direct lookup and all seven variants miss, both before and after the refresh. |
| StockData.ResolveOnRefreshed | stock_data.py:89-108 | On a registry that a refresh would not change, resolution leaves the registry as it is and needs only the first round of lookups. |
| StockData.TryVariants | stock_data.py:89-108 | The loop computes `FirstHit` on the current registry. |
| StockData.GetStockCode | stock_data.py:70-115 | The code is the direct lookup, else the first variant hit, else the first variant hit after a refresh. The registry is refreshed only when every first-round lookup missed. The bars and snapshots are untouched. |
| StockData.AShareCodes | stock_data.py:145 | The A-share list holds exactly the input codes not ending in `.HK`. |
| StockData.HkCodes | stock_data.py:146 | The HK list holds exactly the input codes ending in `.HK`. |
| StockData.Ordered | stock_data.py:145-222 | The processing order has one entry per input code. |
| StockData.SplitKeepsOrder | stock_data.py:145-146 | The split distributes over concatenation, so each group keeps the input order. |
| StockData.GroupsLength | stock_data.py:145-146 | The two groups together are exactly as long as the input. |
| StockData.RecordedSpec | stock_data.py:170-222 | After the loops each processed code is a key of `results` holding its own outcome, and other keys keep their values. |
| StockData.Stop | stock_data.py:160-228 | The number of codes processed in a segment is at most its length. |
| StockData.CodeSucceeds | stock_data.py:170-222 | The outcome of one code's fetch and save. Its meaning is stated by StockData.ProcessCode: success iff the fetch does not raise, the bars are non-empty and the save commits. |
| StockData.ProcessCode | stock_data.py:170-222 | A code succeeds iff the fetch does not raise, returns bars, and the save commits. The bars table then holds exactly that save's effect. |
| StockData.SavedSnoc | stock_data.py:166-222 | One more processed code adds that code's save effect. |
| StockData.RecordedSnoc | stock_data.py:170-222 | One more processed code sets that code's result. |
| StockData.ProcessChunk | stock_data.py:166-222 | A chunk continues the fold. It stops at the position where the outer block raises, and reports the abort iff that position lies inside the chunk. |
| StockData.ProcessGroup | stock_data.py:161-222 | A group, chunk by chunk, leaves the table and `results` as processing its codes one by one up to the abort point would, whatever the chunk size. |
| StockData.Processed | stock_data.py:160-228 | The number of codes processed before an abort is at most the number of codes. |
| StockData.ProcessBothGroups | stock_data.py:160-224 | The A-share group goes first, then the HK group, and the positions run on across both. The table holds the effect of the codes processed in that order. |
| StockData.UpdateDailyDataBatch | stock_data.py:137-228 | `results` has exactly the input codes as keys. Each value is the code's own success, or False for all codes when the outer block raised. The table holds the saves of the codes processed, A-shares first, up to the abort. Registry and snapshots are untouched. |
| StockData.SavedPricesAppend | stock_data.py:160-224 | Processing `a` then `b` is processing `a + b`. |
| StockData.RecordedAll | stock_data.py:158-224 | When both groups finish, the keys are exactly the input codes and each holds its own outcome. |
| StockData.UpdateDailyData | stock_data.py:117-135 | The single-code update succeeds iff no abort happens at position 0 and the code succeeds. The table then holds that code's save effect. |
| StockDataSectors.Names | stock_data.py:282 | The sector names, in SECTORS order. |
| StockDataSectors.CodeMapInsert | stock_data.py:251-257 | Resolving one more name adds only its own entry, and only when its code is truthy. |
| StockDataSectors.ResolveAll | stock_data.py:247-272 | After the refresh, `stock_codes` maps exactly the member names with a truthy code to that code. `code_list` holds exactly the values of `stock_codes`. The tables are untouched. |
| StockDataSectors.SomesInOrder | stock_data.py:286-357 | The kept records are the non-skipped ones, in member order, with none missing. |
| StockDataSectors.SurvivorsInOrder | stock_data.py:286-357 | A sector's records correspond one-to-one, in order, to the members that are not skipped. |
| StockDataSectors.SectorResult | stock_data.py:366-373 | One sector's entry. Its meaning is stated by StockDataSectors.SectorResultConsistent; the loop of StockDataSectors.BuildSector computes its records. |
| StockDataSectors.SectorResultConsistent | stock_data.py:366-373 | A sector's entry holds the surviving records, and each carries the score of its own list. |
| StockDataSectors.MemberRecord | stock_data.py:286-357 | One member's record, or nothing when it is skipped. Its meaning is stated by StockDataSectors.MemberStep, which is proved equal to it, and by Metrics.MemberMetricsSpec. |
| StockDataSectors.MemberStep | stock_data.py:286-357 | A member is skipped when: it has no code; its code's update failed; it has no latest bar; or it has no bar in the window. Otherwise it gives its metrics record. |
| StockDataSectors.StampScores | stock_data.py:370-371 | The in-place loop computes `Stamp`. |
| StockDataSectors.SurvivorsSnoc | stock_data.py:286-357 | One more member appends its record, if it has one. |
| StockDataSectors.BuildSector | stock_data.py:282-373 | A sector is its surviving records, stamped with their sector score. |
| StockDataSectors.BuildAll | stock_data.py:281-376 | The result has one entry per sector in SECTORS order, each that sector's result. |
| StockDataSectors.SnapshotsOf | stock_data.py:376 | One snapshot per sector, in order, with that sector's records and the save time. |
| StockDataSectors.BuildAndSaveSectors | stock_data.py:281-376 | The result is `BuildAll` on the refreshed bars. The snapshot log gains one snapshot per sector, in order. Registry and bars are untouched. |
| StockDataSectors.SnapshotsOfSnoc | stock_data.py:376 | Saving one more sector appends its snapshot. |
| StockDataSectors.AllSectorStocksData | stock_data.py:230-386 | One refresh of stock_basic, one resolution of all member names, one batch update of the resolved codes, then the per-sector build and save (`RefreshOutcome`). |
| StockDataSectors.BatchResultsAre | stock_data.py:273 | The batch's `results` is a function of the code list and the provider alone. |
| StockDataSectors.RefreshOutcomeOf | stock_data.py:230-386 | Tables and a result built from one order of the resolved codes are a refresh outcome. |
| StockDataSectors.SectorLookups | stock_data.py:423-424 | The 30-minute lookup of each sector, in order. |
| StockDataSectors.TakeHits | stock_data.py:423-429 | The scan collects, in order, the sectors whose lookup hit, up to the first miss, and all of them when every lookup hits. |
| StockDataSectors.CachedPrefix | stock_data.py:421-433 | The partial dictionary holds the first sectors in order, each with the records of its latest snapshot. |
| StockDataSectors.TakeHitsUpTo | stock_data.py:423-429 | When the first `i` lookups hit and the next misses, the scan has collected exactly `i` sectors. |
| StockDataSectors.ScanStopped | stock_data.py:421-433 | Where the scan stops is the cached prefix, and the scan runs to the end exactly when every lookup hits. |
| StockDataSectors.ScanCache | stock_data.py:421-433 | The loop with `break` returns the cached prefix, and the "all fresh" flag iff every sector is cached. |
| StockDataSectors.AllCachedIff | stock_data.py:421-439 | The cache path is taken exactly when every sector has some snapshot, however old. |
| StockDataSectors.CachedPrefixFull | stock_data.py:421-439 | When every sector is cached, the dictionary holds all sectors, each with its newest snapshot's records. |
| StockDataSectors.RescoreAll | stock_data.py:443-451 | Rescoring keeps one entry per sector. |
| StockDataSectors.RescoreAllConsistent | stock_data.py:443-451 | Rescoring keeps every sector name and every record except `sector_score`, and each record then carries its own list's score. |
| StockDataSectors.Rescore | stock_data.py:443-451 | The two loops (all scores, then the stamping) compute `RescoreAll`. |
| StockDataSectors.EmptyResult | stock_data.py:467-469 | Sector by sector, every list is empty. |
| StockDataSectors.GetSectorComparison | stock_data.py:416-471 | Four exclusive ways out. (1) Not forced and all sectors cached: cached lists, rescored, tables untouched. (2) No refresh failure: a full refresh. (3) Refresh raises, not forced, partial cache non-empty: the partial cache. (4) Otherwise: the empty structure. Tables are untouched except on a refresh. |
| App.InitStatus.constructor | app.py:19-24 | Not complete, not in progress, no last update, no error. |
| App.InitStatus.InitializeData | app.py:27-56 | Never left in progress. Complete iff the refresh did not raise. On success `last_update` is now, the error is cleared, and the tables hold a refresh outcome. On failure the error holds the prefixed message and the tables are unchanged. |
| App.InitStatus.StartBackgroundInitialization | app.py:62-83 | Refused, with nothing changed, exactly when a run is in progress. Otherwise the run happens with the outcome of `InitializeData`. |
| App.InitStatus.CheckInitStatus | app.py:96-113 | `has_data` holds iff some sector has a snapshot. The status becomes complete, with `last_update` now, exactly when data exists and the status was neither complete nor in progress. Nothing else changes. |
| App.InitStatus.GetSectorData | app.py:151-199 | A forced refresh always refreshes. Otherwise the data comes from `get_sector_comparison`, whatever the status says. The response is `Respond` of that data. |
| App.Route | app.py:158-166 | The direct refresh is taken iff a refresh is forced; the status flag never changes the route. |
| App.SortScoreIsSectorScore | app.py:169-174 | On lists that carry their own score (every list returned), the sort score is the sector score, and 0 for an empty list. |
| App.Scores | app.py:169-174 | One sort score per sector, in order. |
| App.NullIfFalsy | app.py:184-192 | `float(x) if x else None`: absent exactly when the value is missing or 0, and otherwise the value. |
| App.FormatStock | app.py:181-193 | Name, code and date are kept. Each numeric field is nulled out exactly when falsy. `sector_score` is 0 when absent. |
| App.FormatSector | app.py:178-194 | One formatted record per record, in order. |
| App.FormattedNeverZero | app.py:184-192 | No formatted numeric field is ever 0: a zero cannot be told from a missing value. |
| App.Insert | app.py:197-199 | Insertion adds exactly one position. |
| App.InsertPermutes | app.py:197-199 | Insertion adds exactly one occurrence of the position. |
| App.ConsSorted | app.py:197-199 | A position that comes before every other can be placed in front. |
| App.InsertSorted | app.py:197-199 | Insertion keeps the order by descending score, ties in dictionary order. |
| App.SortPositions | app.py:197-199 | The sort yields as many positions as sectors, all in range. |
| App.Positions | app.py:197 | The dictionary's positions, in dictionary order. |
| App.SortPositionsPermutes | app.py:197-199 | The sorted positions are a permutation of all positions. |
| App.SortPositionsSorted | app.py:197-199 | The sorted positions run by descending score, with equal scores in dictionary order (Python's sort is stable). |
| App.Respond | app.py:169-206 | The response of the route. Its meaning is stated by App.RespondSpec. |
| App.RespondSpec | app.py:169-206 | The response keeps every sector, in dictionary order, with its records formatted one by one and its sort score. `sorted_sectors` is a permutation of the sectors, by descending score, ties in dictionary order. |

## Left out

- SQLite itself. Connection failures, schema creation (`init_db`) and the exceptions inside `get_stock_code_from_db`, `get_daily_prices`, `save_sector_data`, `get_latest_sector_data` and `is_data_fresh` are left out: these are database faults, not logic. The one fault that changes a result, a failing statement in `save_daily_price`, is modelled as `failAt`.
- Db.Database.SaveStockBasic: an exception raised by `to_sql` (db.py:91-94) is not modelled. An invalid frame is not part of the data model.
- The data provider (Tushare) is the oracle `Env.respond`. The merge of A-share and HK basic info is the already-merged frame `Env.basicInfo`. A fault inside one code's fetch or save is `Env.storeFault` or `Raises`. The outer `except` of `update_daily_data_batch` is `Env.abortAt`. The oracle answers per code, so a code listed twice gets the same answer twice.
- The clock is `Env.now`, `Env.today` and `Env.windowStart`. The `days` argument and the strftime conversions of the date window arrive through them. The 30-minute cutoff is computed in seconds rather than by comparing date strings.
- StockDataSectors.AllSectorStocksData: the `except` returning `{}` (stock_data.py:388-390) is not modelled. Every fault it could catch is already modelled where it occurs, or is a database fault.
- StockDataSectors.GetSectorComparison: the refresh raising is the parameter `refreshRaises`, taken to raise before anything changes, because the refreshed function catches everything itself.
- App.InitStatus.InitializeData: the refresh raising is the parameter `failure`, likewise taken to raise before anything changes. `last_update` is seconds, not a formatted string.
- App.InitStatus.StartBackgroundInitialization: the thread, the daemon flag and the race between the guard and the thread are not modelled; the run happens before the method returns. The thread's own `except` (app.py:74-78) is not modelled, since `initialize_data` catches everything.
- App.InitStatus.CheckInitStatus: the JSON envelope and the `except` defaults (app.py:115-138) are not modelled.
- App.InitStatus.GetSectorData: reading the `refresh` query argument, the JSON envelope, the `except` (app.py:207-208), and the other routes and page renders are left out. The data part receives `forceRefresh` directly.
- Metrics.MemberMetrics: `highest_date` is the trade date as YYYYMMDD, capped at today. The `%Y-%m-%d` formatting and its `except` fallback (stock_data.py:327-336) are not modelled, nor the per-member `except` (stock_data.py:360-361), which numeric bars never reach.
- Floating point is modelled as exact `real` arithmetic. NaN values from the provider, `astype(float)` and `float(...)` conversions are not modelled.
- JSON: a snapshot's payload is either the decoded record list or `Corrupt` (read back as an empty list). The `isinstance(stock, dict)` checks (stock_data.py:450, app.py:171) do not apply, since every element is a record.
- App.FormatStock: the legacy `max_3m_increase` fallback field (app.py:187) is not modelled. Records carry only the current field name.
- The reverse map `stock_names`, the missing-stock list, the success counters and every print (stock_data.py:248-278, 379-384) are left out; nothing reads them.
- HkStockUtils.NameVariations: Python's `set` has no order, so only membership and the absence of duplicates are promised, not an order.
- StockDataSectors.ResolveAll: every name that misses calls `update_stock_basic_data()` again (stock_data.py:98-99). In the source each such call queries the provider twice and replaces the whole registry with a fresh `last_updated`. The model reads the provider once, from `Env`, so after the first refresh these calls leave the registry as it is. The repeated provider queries and the changing `last_updated` stamps are not modelled.
- StockDataSectors.ResolveAll: `all_stocks` is a set. The resolution loop takes names in an unspecified order, and the results do not depend on it. `code_list` is promised only up to its members, so a refresh's outcome holds for some order of the codes.
- Snapshots.Newest: among snapshots with equal fetch times, SQLite's choice is unspecified. The model takes the earliest appended.
- HkStockUtils.HkMarketStatus: the time-zone lookup and the `local_time` string are not modelled, nor the `except` branch. The local wall-clock reading is the input.
- Registry.Like: SQLite LIKE folds case only for ASCII letters; the model does the same. `%` and `_` occurring inside a name are not treated as wildcards.
- The `SECTORS` dictionary's contents (sector.py) are not part of this model. Sectors are an input sequence in dictionary order.
- StockDataSectors.AllSectorStocksData, StockDataSectors.GetSectorComparison, App.InitStatus.CheckInitStatus and App.Respond assume the sector names are distinct, as the keys of the `SECTORS` dictionary are. The model neither demands nor uses this. Given a repeated name, the model's result lists would hold one entry per occurrence, where a dictionary holds one entry.
