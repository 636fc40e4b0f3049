/** The arithmetic of stock_data.py: the drop from the peak, the sector score, and the
    per-stock metrics computed from the bars of one price window. */
module Metrics {
  import opened Common
  import opened Records
  import opened DailyPrices

  // ---------------------------------------------------------------- drop percentage

  /** `calculate_drop_percentage(current, highest)` (stock_data.py:392-398). */
  function DropPercentage(current: Option<real>, highest: Option<real>): (r: Option<real>)
    ensures r.None? <==> current.None? || highest.None? || highest.value == 0.0
    ensures r.Some? ==> r.value * highest.value == (current.value - highest.value) * 100.0
  {
    if current.None? || highest.None? || highest.value == 0.0 then None
    else
      var d := (current.value - highest.value) / highest.value * 100.0;
      assert d * highest.value == (current.value - highest.value) * 100.0;
      Some(d)
  }

  lemma DropOfEightyFromHundred()
    ensures DropPercentage(Some(80.0), Some(100.0)) == Some(-20.0)
  {
    var r := DropPercentage(Some(80.0), Some(100.0));
    assert r.value * 100.0 == -2000.0;
  }

  /** A price at or below a positive peak is a non-positive drop, and never below -100 when the
      price is not negative. */
  lemma DropIsNonPositive(current: real, highest: real)
    requires highest > 0.0 && current <= highest
    ensures DropPercentage(Some(current), Some(highest)).value <= 0.0
    ensures current >= 0.0 ==> DropPercentage(Some(current), Some(highest)).value >= -100.0
  {
    var d := DropPercentage(Some(current), Some(highest)).value;
    assert d * highest == (current - highest) * 100.0;
    assert d == (current - highest) / highest * 100.0;
  }

  // ---------------------------------------------------------------- sector score

  function Abs(x: real): real {
    if x < 0.0 then -x else x
  }

  /** How many records carry a drop percentage. */
  function DropCount(stocks: seq<StockRecord>): (n: nat)
    ensures n <= |stocks|
  {
    if stocks == [] then 0
    else DropCount(stocks[..|stocks| - 1]) + (if stocks[|stocks| - 1].dropPercentage.Some? then 1 else 0)
  }

  /** The sum of the absolute drop percentages that are present. */
  function DropSum(stocks: seq<StockRecord>): (s: real)
    ensures s >= 0.0
  {
    if stocks == [] then 0.0
    else
      var last := stocks[|stocks| - 1];
      DropSum(stocks[..|stocks| - 1]) + (if last.dropPercentage.Some? then Abs(last.dropPercentage.value) else 0.0)
  }

  /** `calculate_sector_score(stocks)` (stock_data.py:400-414): the mean absolute drop over the
      records that have one; 0 when none has. */
  function SectorScore(stocks: seq<StockRecord>): (r: real)
    ensures r >= 0.0
    ensures DropCount(stocks) == 0 ==> r == 0.0
    ensures DropCount(stocks) > 0 ==> r * (DropCount(stocks) as real) == DropSum(stocks)
  {
    if stocks == [] then 0.0
    else if DropCount(stocks) == 0 then 0.0
    else DropSum(stocks) / (DropCount(stocks) as real)
  }

  /** The drop a record contributes to the sum, and to the count. */
  function DropTerm(s: StockRecord): real {
    if s.dropPercentage.Some? then Abs(s.dropPercentage.value) else 0.0
  }

  function DropInc(s: StockRecord): nat {
    if s.dropPercentage.Some? then 1 else 0
  }

  lemma DropStep(stocks: seq<StockRecord>)
    requires stocks != []
    ensures var n := |stocks| - 1;
      DropSum(stocks) == DropSum(stocks[..n]) + DropTerm(stocks[n])
      && DropCount(stocks) == DropCount(stocks[..n]) + DropInc(stocks[n])
  {
  }

  /** `n` copies of `bound` added up. */
  function Scale(bound: real, n: nat): real {
    if n == 0 then 0.0 else Scale(bound, n - 1) + bound
  }

  lemma {:induction false} ScaleIsProduct(bound: real, n: nat)
    ensures Scale(bound, n) == bound * (n as real)
  {
    if n > 0 {
      ScaleIsProduct(bound, n - 1);
      assert bound * ((n - 1) as real) + bound == bound * (n as real);
    }
  }

  lemma {:induction false} DropSumBounded(stocks: seq<StockRecord>, bound: real)
    requires forall k :: 0 <= k < |stocks| && stocks[k].dropPercentage.Some? ==> Abs(stocks[k].dropPercentage.value) <= bound
    ensures DropSum(stocks) <= Scale(bound, DropCount(stocks))
  {
    if stocks != [] {
      var n := |stocks| - 1;
      var init := stocks[..n];
      assert forall k :: 0 <= k < n ==> init[k] == stocks[k];
      DropSumBounded(init, bound);
      DropStep(stocks);
    }
  }

  /** The score is no larger than the largest absolute drop. */
  lemma SectorScoreBounded(stocks: seq<StockRecord>, bound: real)
    requires bound >= 0.0
    requires forall k :: 0 <= k < |stocks| && stocks[k].dropPercentage.Some? ==> Abs(stocks[k].dropPercentage.value) <= bound
    ensures SectorScore(stocks) <= bound
  {
    DropSumBounded(stocks, bound);
    ScaleIsProduct(bound, DropCount(stocks));
    if DropCount(stocks) > 0 {
      MeanBounded(DropSum(stocks), DropCount(stocks) as real, SectorScore(stocks), bound);
    }
  }

  /** A mean of terms no larger than `bound` is no larger than `bound`. */
  lemma MeanBounded(sum: real, n: real, r: real, bound: real)
    requires n > 0.0 && r * n == sum && sum <= bound * n
    ensures r <= bound
  {
    assert (bound - r) * n >= 0.0;
  }

  lemma {:induction false} DropsIgnoreScores(a: seq<StockRecord>, b: seq<StockRecord>)
    requires SameExceptScore(a, b)
    ensures DropCount(a) == DropCount(b) && DropSum(a) == DropSum(b)
  {
    if a != [] {
      var n := |a| - 1;
      assert SameExceptScore(a[..n], b[..n]) by {
        forall k | 0 <= k < n ensures a[..n][k].(sectorScore := None) == b[..n][k].(sectorScore := None) {
          assert a[..n][k] == a[k] && b[..n][k] == b[k];
        }
      }
      DropsIgnoreScores(a[..n], b[..n]);
      assert a[n].dropPercentage == a[n].(sectorScore := None).dropPercentage;
      assert b[n].dropPercentage == b[n].(sectorScore := None).dropPercentage;
    }
  }

  /** The score reads only the drops, so stamping a score onto the records does not change it. */
  lemma SectorScoreIgnoresScores(a: seq<StockRecord>, b: seq<StockRecord>)
    requires SameExceptScore(a, b)
    ensures SectorScore(a) == SectorScore(b)
  {
    DropsIgnoreScores(a, b);
  }

  lemma StampKeepsRecords(stocks: seq<StockRecord>, score: real)
    ensures SameExceptScore(stocks, Stamp(stocks, score))
  {
  }

  // ---------------------------------------------------------------- per-stock metrics

  /** The first position with the largest `high` (`idxmax` keeps the first occurrence). */
  function FirstPeak(s: seq<DailyBar>): (k: nat)
    requires s != []
    ensures k < |s|
    ensures forall j :: 0 <= j < |s| ==> s[j].values.high <= s[k].values.high
    ensures forall j :: 0 <= j < k ==> s[j].values.high < s[k].values.high
  {
    if |s| == 1 then 0
    else
      var k := FirstPeak(s[1..]);
      if s[0].values.high >= s[1 + k].values.high then 0 else 1 + k
  }

  /** The largest of a non-empty list of numbers (`Series.max()`). */
  function MaxOf(xs: seq<real>): (m: real)
    requires xs != []
    ensures m in xs
    ensures forall j :: 0 <= j < |xs| ==> xs[j] <= m
  {
    if |xs| == 1 then xs[0]
    else
      var m := MaxOf(xs[1..]);
      assert forall j :: 1 <= j < |xs| ==> xs[j] == xs[1..][j - 1];
      if xs[0] >= m then xs[0] else m
  }

  function Vols(s: seq<DailyBar>): (r: seq<real>)
    ensures |r| == |s| && forall j :: 0 <= j < |s| ==> r[j] == s[j].values.vol
  {
    seq(|s|, j requires 0 <= j < |s| => s[j].values.vol)
  }

  function PctChgs(s: seq<DailyBar>): (r: seq<real>)
    ensures |r| == |s| && forall j :: 0 <= j < |s| ==> r[j] == s[j].values.pctChg
  {
    seq(|s|, j requires 0 <= j < |s| => s[j].values.pctChg)
  }

  function Reverse(s: seq<DailyBar>): (r: seq<DailyBar>)
    ensures |r| == |s| && forall j :: 0 <= j < |s| ==> r[j] == s[|s| - 1 - j]
  {
    if s == [] then [] else [s[|s| - 1]] + Reverse(s[..|s| - 1])
  }

  /** The window sorted by `trade_date` ascending (`sort_values('trade_date')`, stock_data.py:315). */
  function Ascending(hist: seq<DailyBar>): (r: seq<DailyBar>)
    ensures |r| == |hist|
    ensures forall b :: b in r <==> b in hist
    ensures forall i, j :: 0 <= i < j < |r| ==> r[i].key.tradeDate <= r[j].key.tradeDate
  {
    SortDescSpec(hist);
    var d := SortDesc(hist);
    var r := Reverse(d);
    assert forall b :: b in r <==> b in d by {
      forall b | b in d ensures b in r {
        var j :| 0 <= j < |d| && d[j] == b;
        assert r[|d| - 1 - j] == b;
      }
    }
    r
  }

  /** A peak date later than today is replaced by today (stock_data.py:327-333). */
  function NotAfter(date: int, today: int): int {
    if date > today then today else date
  }

  /** The first bar of the ascending window with the largest `high` (stock_data.py:315-318):
      the earliest-dated bar among those with the largest `high`. */
  function Peak(hist: seq<DailyBar>): (p: DailyBar)
    requires hist != []
    ensures p in hist
    ensures forall b :: b in hist ==> b.values.high <= p.values.high
    ensures forall c :: c in hist && c.values.high == p.values.high ==> p.key.tradeDate <= c.key.tradeDate
  {
    var asc := Ascending(hist);
    var k := FirstPeak(asc);
    var peak := asc[k];
    assert forall c :: c in hist && c.values.high == peak.values.high ==> peak.key.tradeDate <= c.key.tradeDate by {
      forall c | c in hist && c.values.high == peak.values.high ensures peak.key.tradeDate <= c.key.tradeDate {
        var j :| 0 <= j < |asc| && asc[j] == c;
        if j < k {
          assert false;
        }
        if j > k {
          assert asc[k].key.tradeDate <= asc[j].key.tradeDate;
        }
      }
    }
    assert forall b :: b in hist ==> b.values.high <= peak.values.high by {
      forall b | b in hist ensures b.values.high <= peak.values.high {
        var j :| 0 <= j < |asc| && asc[j] == b;
        assert asc[j].values.high <= asc[k].values.high;
      }
    }
    peak
  }

  /** `hist_data['vol'].max()` (stock_data.py:321). */
  function MaxVolume(hist: seq<DailyBar>): (m: real)
    requires hist != []
    ensures (exists b :: b in hist && b.values.vol == m) && forall b :: b in hist ==> b.values.vol <= m
  {
    var vols := Vols(hist);
    var m := MaxOf(vols);
    assert forall b :: b in hist ==> b.values.vol <= m by {
      forall b | b in hist ensures b.values.vol <= m {
        var j :| 0 <= j < |hist| && hist[j] == b;
        assert vols[j] == b.values.vol;
      }
    }
    var j :| 0 <= j < |vols| && vols[j] == m;
    assert hist[j] in hist;
    m
  }

  /** `hist_data['pct_chg'].max()` (stock_data.py:339-340). */
  function MaxPctChg(hist: seq<DailyBar>): (m: real)
    requires hist != []
    ensures (exists b :: b in hist && b.values.pctChg == m) && forall b :: b in hist ==> b.values.pctChg <= m
  {
    var pcts := PctChgs(hist);
    var m := MaxOf(pcts);
    assert forall b :: b in hist ==> b.values.pctChg <= m by {
      forall b | b in hist ensures b.values.pctChg <= m {
        var j :| 0 <= j < |hist| && hist[j] == b;
        assert pcts[j] == b.values.pctChg;
      }
    }
    var j :| 0 <= j < |pcts| && pcts[j] == m;
    assert hist[j] in hist;
    m
  }

  /** `(latest_volume / max_volume * 100) if max_volume > 0 else 0` (stock_data.py:324). */
  function VolumeRatio(latestVolume: real, maxVolume: real): (r: real)
    ensures maxVolume > 0.0 ==> r * maxVolume == latestVolume * 100.0
    ensures maxVolume <= 0.0 ==> r == 0.0
  {
    if maxVolume > 0.0 then
      var r := latestVolume / maxVolume * 100.0;
      assert r * maxVolume == latestVolume * 100.0;
      r
    else 0.0
  }

  /** The record of one member (stock_data.py:305-357) from its latest bar and the bars of the
      window; `sectorScore` is not yet set. */
  function MemberMetrics(name: string, code: string, latest: DailyBar, hist: seq<DailyBar>, today: int): (r: StockRecord)
    requires hist != []
    ensures r.name == name && r.code == code && r.sectorScore.None?
  {
    var peak := Peak(hist);
    var maxVolume := MaxVolume(hist);
    StockRecord(
      name, code, latest.values.close, peak.values.high, NotAfter(peak.key.tradeDate, today),
      MaxPctChg(hist), DropPercentage(Some(latest.values.close), Some(peak.values.high)),
      latest.values.vol, maxVolume, VolumeRatio(latest.values.vol, maxVolume), None)
  }

  /** The fields of a member's record: the latest close and volume, the peak high of the
      window with the earliest date that reaches it (capped at today), the largest volume and
      daily change of the window, the volume ratio and the drop from the peak. */
  lemma MemberMetricsSpec(name: string, code: string, latest: DailyBar, hist: seq<DailyBar>, today: int)
    requires hist != []
    ensures var r := MemberMetrics(name, code, latest, hist, today);
      && r.latestPrice == latest.values.close && r.latestVolume == latest.values.vol
      && (forall b :: b in hist ==> b.values.high <= r.highestPrice)
      && (exists b :: b in hist && b.values.high == r.highestPrice && r.highestDate == NotAfter(b.key.tradeDate, today)
            && forall c :: c in hist && c.values.high == r.highestPrice ==> b.key.tradeDate <= c.key.tradeDate)
      && (exists b :: b in hist && b.values.vol == r.maxVolume) && (forall b :: b in hist ==> b.values.vol <= r.maxVolume)
      && (exists b :: b in hist && b.values.pctChg == r.maxIncrease) && (forall b :: b in hist ==> b.values.pctChg <= r.maxIncrease)
      && r.volumeRatio == VolumeRatio(r.latestVolume, r.maxVolume)
      && r.dropPercentage == DropPercentage(Some(r.latestPrice), Some(r.highestPrice))
  {
    var r := MemberMetrics(name, code, latest, hist, today);
    var peak := Peak(hist);
    assert peak in hist && peak.values.high == r.highestPrice && r.highestDate == NotAfter(peak.key.tradeDate, today);
  }
}
