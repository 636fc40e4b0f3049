/** hk_stock_utils.py: name variants for Hong Kong listings, the `.HK` code test, the volume
    pass-through and the open/closed decision of the market-status helper. */
module HkStockUtils {
  import opened Common

  type Word = w: string | w != "" witness "W"

  /** The suffixes of hk_stock_utils.py:10, in order. */
  const HkSuffixes: seq<Word> := ["-W", "-SW", " Holdings", " Group", " Limited", " Ltd", " Corp", " Inc"]

  /** The company words of hk_stock_utils.py:25, in order. */
  const CompanyWords: seq<Word> := ["集团", "控股", "有限公司", "公司"]

  // ---------------------------------------------------------------- name variations

  /** `name + suffix` for one of the first `n` suffixes the name does not end with. */
  predicate Suffixed(name: string, v: string, n: int) {
    exists j :: 0 <= j < n && j < |HkSuffixes| && !EndsWith(name, HkSuffixes[j]) && v == name + HkSuffixes[j]
  }

  /** The name without one of the first `n` suffixes, for a suffix it ends with. */
  predicate Based(name: string, v: string, n: int) {
    exists j :: 0 <= j < n && j < |HkSuffixes| && EndsWith(name, HkSuffixes[j])
                && v == name[..|name| - |HkSuffixes[j]|]
  }

  /** The name with every occurrence of one of the first `n` company words it contains
      removed and the result stripped, when that is not empty. */
  predicate WordRemoved(name: string, v: string, n: int) {
    exists j :: 0 <= j < n && j < |CompanyWords| && Contains(name, CompanyWords[j])
                && v == Strip(ReplaceAll(name, CompanyWords[j], "")) && v != ""
  }

  /** `name + word` for one of the first `n` company words the name does not contain. */
  predicate WordAdded(name: string, v: string, n: int) {
    exists j :: 0 <= j < n && j < |CompanyWords| && !Contains(name, CompanyWords[j]) && v == name + CompanyWords[j]
  }

  /** Every string the three loops of hk_stock_utils.py:13-32 can contribute, and the name. */
  predicate IsVariation(name: string, v: string) {
    || v == name
    || Suffixed(name, v, |HkSuffixes|)
    || Based(name, v, |HkSuffixes|)
    || WordRemoved(name, v, |CompanyWords|)
    || WordAdded(name, v, |CompanyWords|)
  }

  /** `get_hk_stock_name_variations(name)` (hk_stock_utils.py:5-34). Python's set gives no order;
      this list keeps first appearance, and only its membership is promised. */
  method NameVariations(name: string) returns (r: seq<string>)
    ensures name in r
    ensures NoDuplicates(r)
    ensures forall v :: v in r <==> IsVariation(name, v)
  {
    var variations := AddSuffixed(name);
    variations := AddBases(name, variations);
    variations := AddCompanyWords(name, variations);
    r := Dedup(variations);
  }

  /** The loop of hk_stock_utils.py:13-15. */
  method AddSuffixed(name: string) returns (variations: seq<string>)
    ensures forall v :: v in variations <==> v == name || Suffixed(name, v, |HkSuffixes|)
  {
    variations := [name];
    var i := 0;
    while i < |HkSuffixes|
      invariant 0 <= i <= |HkSuffixes|
      invariant forall v :: v in variations <==> v == name || Suffixed(name, v, i)
    {
      if !EndsWith(name, HkSuffixes[i]) {
        variations := variations + [name + HkSuffixes[i]];
      }
      i := i + 1;
    }
  }

  /** The loop of hk_stock_utils.py:18-22. */
  method AddBases(name: string, variations0: seq<string>) returns (variations: seq<string>)
    requires forall v :: v in variations0 <==> v == name || Suffixed(name, v, |HkSuffixes|)
    ensures forall v :: v in variations <==> v == name || Suffixed(name, v, |HkSuffixes|) || Based(name, v, |HkSuffixes|)
  {
    variations := variations0;
    var i := 0;
    while i < |HkSuffixes|
      invariant 0 <= i <= |HkSuffixes|
      invariant forall v :: v in variations <==> v == name || Suffixed(name, v, |HkSuffixes|) || Based(name, v, i)
    {
      var suffix := HkSuffixes[i];
      if EndsWith(name, suffix) {
        var baseName := name[..|name| - |suffix|];
        if baseName !in variations {
          variations := variations + [baseName];
        }
      }
      i := i + 1;
    }
  }

  /** The loop of hk_stock_utils.py:25-32. */
  method AddCompanyWords(name: string, variations0: seq<string>) returns (variations: seq<string>)
    requires forall v :: v in variations0 <==> v == name || Suffixed(name, v, |HkSuffixes|) || Based(name, v, |HkSuffixes|)
    ensures forall v :: v in variations <==> IsVariation(name, v)
  {
    variations := variations0;
    var i := 0;
    while i < |CompanyWords|
      invariant 0 <= i <= |CompanyWords|
      invariant forall v :: v in variations <==>
        v == name || Suffixed(name, v, |HkSuffixes|) || Based(name, v, |HkSuffixes|)
        || WordRemoved(name, v, i) || WordAdded(name, v, i)
    {
      var word := CompanyWords[i];
      if Contains(name, word) {
        var variation := Strip(ReplaceAll(name, word, ""));
        if variation != "" && variation !in variations {
          variations := variations + [variation];
        }
      } else {
        variations := variations + [name + word];
      }
      i := i + 1;
    }
  }

  /** `list(set(variations))`: each element once, the same members. */
  method Dedup(variations: seq<string>) returns (r: seq<string>)
    ensures NoDuplicates(r)
    ensures forall v :: v in r <==> v in variations
  {
    r := [];
    var k := 0;
    while k < |variations|
      invariant 0 <= k <= |variations|
      invariant NoDuplicates(r)
      invariant forall v :: v in r <==> v in variations[..k]
    {
      if variations[k] !in r {
        r := r + [variations[k]];
      }
      assert variations[..k + 1] == variations[..k] + [variations[k]];
      k := k + 1;
    }
    assert variations[..k] == variations;
  }

  // ---------------------------------------------------------------- codes, volume, hours

  /** `is_hk_stock_code(code)` (hk_stock_utils.py:36-38), read as a truth value. */
  function IsHkStockCode(code: Option<string>): (r: bool)
    ensures r <==> code.Some? && exists p :: p + ".HK" == code.value
  {
    if Truthy(code) && EndsWith(code.value, ".HK") then
      assert code.value[..|code.value| - 3] + ".HK" == code.value;
      true
    else
      assert forall p :: (p + ".HK")[|p| + 3 - 3..] == ".HK";
      false
  }

  /** `format_hk_volume(volume)` (hk_stock_utils.py:40-47): no conversion. */
  function FormatHkVolume(volume: Option<real>): (r: Option<real>)
    ensures r == volume
  {
    if volume.None? then None else volume
  }

  /** A local Hong Kong wall-clock reading; `weekday` counts from Monday = 0. */
  datatype HkLocalTime = HkLocalTime(weekday: int, hour: int, minute: int, second: int, microsecond: int)

  predicate ValidTime(t: HkLocalTime) {
    0 <= t.weekday < 7 && 0 <= t.hour < 24 && 0 <= t.minute < 60 && 0 <= t.second < 60
    && 0 <= t.microsecond < 1_000_000
  }

  datatype MarketStatus = MarketStatus(isOpen: bool, isTradingDay: bool, isTradingHours: bool)

  /** Microseconds since local midnight. */
  function MicrosOfDay(t: HkLocalTime): int {
    ((t.hour * 60 + t.minute) * 60 + t.second) * 1_000_000 + t.microsecond
  }

  /** The decision of `get_hk_market_status` (hk_stock_utils.py:60-71) at local time `now`: a
      weekday and a time from 09:30:00.000000 to 16:00:00.000000, both ends included. */
  function HkMarketStatus(now: HkLocalTime): (r: MarketStatus)
    requires ValidTime(now)
    ensures r.isTradingDay <==> now.weekday < 5
    ensures r.isTradingHours <==>
      && (now.hour > 9 || (now.hour == 9 && now.minute >= 30))
      && (now.hour < 16 || (now.hour == 16 && now.minute == 0 && now.second == 0 && now.microsecond == 0))
    ensures r.isOpen <==> r.isTradingDay && r.isTradingHours
  {
    var open := MicrosOfDay(HkLocalTime(now.weekday, 9, 30, 0, 0));
    var close := MicrosOfDay(HkLocalTime(now.weekday, 16, 0, 0, 0));
    var tradingDay := now.weekday < 5;
    var tradingHours := open <= MicrosOfDay(now) <= close;
    MarketStatus(tradingDay && tradingHours, tradingDay, tradingHours)
  }
}
