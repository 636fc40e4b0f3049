/** The `stock_basic` table of db.py as a sequence of rows in insertion order: the wholesale
    replace of `save_stock_basic` and the SQL queries behind `get_stock_code_from_db`. */
module Registry {
  import opened Common

  /** One row of `stock_basic`, stamped with `last_updated` (seconds). */
  datatype RegistryEntry = RegistryEntry(
    tsCode: string, symbol: string, name: string, area: string, industry: string,
    market: string, lastUpdated: int)

  /** One row of the basic-info frame handed to `save_stock_basic`. */
  datatype BasicRow = BasicRow(
    tsCode: string, symbol: string, name: string, area: string, industry: string, market: string)

  /** The frame; when it has no `market` column, the rows' `market` values are not there. */
  datatype BasicFrame = BasicFrame(rows: seq<BasicRow>, hasMarketColumn: bool)

  // ---------------------------------------------------------------- replace

  function ToEntry(row: BasicRow, hasMarketColumn: bool, now: int): RegistryEntry {
    RegistryEntry(row.tsCode, row.symbol, row.name, row.area, row.industry,
                  if hasMarketColumn then row.market else "CN", now)
  }

  /** The table after `df.to_sql('stock_basic', conn, if_exists='replace')` (db.py:67-77): the
      frame's rows, in order, each stamped with `now`, `market` defaulting to "CN". Nothing of
      the previous table survives. */
  function Replaced(frame: BasicFrame, now: int): (r: seq<RegistryEntry>)
    ensures |r| == |frame.rows|
    ensures forall i :: 0 <= i < |r| ==>
      && r[i].tsCode == frame.rows[i].tsCode && r[i].name == frame.rows[i].name
      && r[i].symbol == frame.rows[i].symbol && r[i].area == frame.rows[i].area
      && r[i].industry == frame.rows[i].industry
      && r[i].market == (if frame.hasMarketColumn then frame.rows[i].market else "CN")
      && r[i].lastUpdated == now
    decreases |frame.rows|
  {
    if frame.rows == [] then []
    else
      var last := frame.rows[|frame.rows| - 1];
      Replaced(BasicFrame(frame.rows[..|frame.rows| - 1], frame.hasMarketColumn), now)
        + [ToEntry(last, frame.hasMarketColumn, now)]
  }

  // ---------------------------------------------------------------- lookup

  /** The three LIKE patterns of db.py:121-125: `%q%`, `q%`, `%q`. */
  datatype NamePattern = ContainsName | PrefixName | SuffixName

  const NamePatterns: seq<NamePattern> := [ContainsName, PrefixName, SuffixName]

  /** SQLite's `name LIKE pattern`: case-insensitive for ASCII letters. */
  predicate Like(name: string, q: string, p: NamePattern) {
    match p
    case ContainsName => Contains(AsciiLower(name), AsciiLower(q))
    case PrefixName => StartsWith(AsciiLower(name), AsciiLower(q))
    case SuffixName => EndsWith(AsciiLower(name), AsciiLower(q))
  }

  /** `SELECT ts_code FROM stock_basic WHERE name = ?` then `fetchone()`: the first such row. */
  function ExactCode(reg: seq<RegistryEntry>, q: string): (r: Option<string>)
    ensures r.None? <==> forall i :: 0 <= i < |reg| ==> reg[i].name != q
    ensures r.Some? ==> exists i :: 0 <= i < |reg| && reg[i].name == q && reg[i].tsCode == r.value
                          && forall j :: 0 <= j < i ==> reg[j].name != q
  {
    if reg == [] then None
    else if reg[0].name == q then Some(reg[0].tsCode)
    else
      var r := ExactCode(reg[1..], q);
      assert forall i :: 0 < i < |reg| ==> reg[i] == reg[1..][i - 1];
      r
  }

  /** All rows whose name is LIKE the pattern, in table order. */
  function Matching(reg: seq<RegistryEntry>, q: string, p: NamePattern): (r: seq<RegistryEntry>)
    ensures forall e :: e in r ==> e in reg && Like(e.name, q, p)
    ensures forall i :: 0 <= i < |reg| && Like(reg[i].name, q, p) ==> reg[i] in r
    ensures r == [] <==> forall i :: 0 <= i < |reg| ==> !Like(reg[i].name, q, p)
  {
    if reg == [] then []
    else
      var rest := Matching(reg[1..], q, p);
      assert forall i :: 0 < i < |reg| ==> reg[i] == reg[1..][i - 1];
      if Like(reg[0].name, q, p) then [reg[0]] + rest else rest
  }

  /** The matching rows come in table order: the first of them is the first row of the table
      that matches. */
  lemma {:induction false} MatchingFirst(reg: seq<RegistryEntry>, q: string, p: NamePattern, i: nat)
    requires i < |reg| && Like(reg[i].name, q, p)
    requires forall j :: 0 <= j < i ==> !Like(reg[j].name, q, p)
    ensures Matching(reg, q, p) != [] && Matching(reg, q, p)[0] == reg[i]
  {
    if i > 0 {
      assert forall j :: 0 <= j < i - 1 ==> reg[1..][j] == reg[j + 1];
      MatchingFirst(reg[1..], q, p, i - 1);
    }
  }

  /** `... WHERE name LIKE ? LIMIT 5` then `fetchall()`. */
  function Candidates(reg: seq<RegistryEntry>, q: string, p: NamePattern): seq<RegistryEntry> {
    var m := Matching(reg, q, p);
    if |m| <= 5 then m else m[..5]
  }

  /** At most five matching rows. None exactly when no row matches, and otherwise the first of
      them is the table's first matching row. Fewer than five only when every matching row
      is among them. */
  lemma CandidatesSpec(reg: seq<RegistryEntry>, q: string, p: NamePattern)
    ensures var c := Candidates(reg, q, p);
      && |c| <= 5
      && (forall e :: e in c ==> e in reg && Like(e.name, q, p))
      && (c == [] <==> forall i :: 0 <= i < |reg| ==> !Like(reg[i].name, q, p))
      && (|c| < 5 ==> forall i :: 0 <= i < |reg| && Like(reg[i].name, q, p) ==> reg[i] in c)
      && (forall i :: 0 <= i < |reg| && Like(reg[i].name, q, p) && (forall j :: 0 <= j < i ==> !Like(reg[j].name, q, p))
            ==> c[0] == reg[i])
  {
    var m := Matching(reg, q, p);
    var c := Candidates(reg, q, p);
    assert forall e :: e in c ==> e in m;
    forall i | 0 <= i < |reg| && Like(reg[i].name, q, p) && (forall j :: 0 <= j < i ==> !Like(reg[j].name, q, p))
      ensures c[0] == reg[i]
    {
      MatchingFirst(reg, q, p, i);
    }
  }

  /** The test inside the loop of db.py:133-142: named exactly `q`, or starting with `q`. */
  predicate Preferred(e: RegistryEntry, q: string) {
    e.name == q || StartsWith(e.name, q)
  }

  /** The position of the first preferred candidate, or `|cands|` when there is none. */
  function FirstPreferred(cands: seq<RegistryEntry>, q: string): (k: nat)
    ensures k <= |cands|
    ensures forall j :: 0 <= j < k ==> !Preferred(cands[j], q)
    ensures k < |cands| ==> Preferred(cands[k], q)
  {
    if cands == [] then 0
    else if Preferred(cands[0], q) then 0
    else 1 + FirstPreferred(cands[1..], q)
  }

  /** The first preferred position is the one before which nothing is preferred. */
  lemma {:induction false} FirstPreferredIs(cands: seq<RegistryEntry>, q: string, k: nat)
    requires k <= |cands|
    requires forall j :: 0 <= j < k ==> !Preferred(cands[j], q)
    requires k < |cands| ==> Preferred(cands[k], q)
    ensures FirstPreferred(cands, q) == k
  {
    if cands != [] && k > 0 {
      assert !Preferred(cands[0], q);
      assert forall j :: 0 <= j < k - 1 ==> cands[1..][j] == cands[j + 1];
      FirstPreferredIs(cands[1..], q, k - 1);
    }
  }

  /** The loop of db.py:133-148 over one non-empty candidate list: the first preferred
      candidate, else the first candidate. */
  function PickCandidate(cands: seq<RegistryEntry>, q: string): (r: RegistryEntry)
    requires cands != []
    ensures r in cands
    ensures (exists j :: 0 <= j < |cands| && Preferred(cands[j], q)) ==> Preferred(r, q)
    ensures FirstPreferred(cands, q) < |cands| ==> r == cands[FirstPreferred(cands, q)]
    ensures (forall j :: 0 <= j < |cands| ==> !Preferred(cands[j], q)) ==> r == cands[0]
  {
    var k := FirstPreferred(cands, q);
    if k < |cands| then cands[k] else cands[0]
  }

  /** The fuzzy stage of `get_stock_code_from_db`: the first pattern with any candidate decides. */
  function FuzzyCode(reg: seq<RegistryEntry>, q: string, patterns: seq<NamePattern>): Option<string> {
    if patterns == [] then None
    else
      var c := Candidates(reg, q, patterns[0]);
      if c != [] then Some(PickCandidate(c, q).tsCode) else FuzzyCode(reg, q, patterns[1..])
  }

  /** `get_stock_code_from_db(q)` on the table `reg`. */
  function CodeLookup(reg: seq<RegistryEntry>, q: string): Option<string> {
    match ExactCode(reg, q)
    case Some(c) => Some(c)
    case None => FuzzyCode(reg, q, NamePatterns)
  }

  lemma ExactIsLike(name: string, q: string)
    requires name == q
    ensures Like(name, q, ContainsName)
  {
    PrefixIsContained(AsciiLower(name), AsciiLower(q));
  }

  lemma PrefixAndSuffixAreLike(name: string, q: string)
    ensures Like(name, q, PrefixName) ==> Like(name, q, ContainsName)
    ensures Like(name, q, SuffixName) ==> Like(name, q, ContainsName)
  {
    if Like(name, q, PrefixName) { PrefixIsContained(AsciiLower(name), AsciiLower(q)); }
    if Like(name, q, SuffixName) { SuffixIsContained(AsciiLower(name), AsciiLower(q)); }
  }

  /** The `q%` and `%q` patterns never decide: whatever they would match, `%q%` matched first. */
  lemma ContainsPatternDecides(reg: seq<RegistryEntry>, q: string)
    ensures CodeLookup(reg, q) == match ExactCode(reg, q)
                                   case Some(c) => Some(c)
                                   case None => FuzzyCode(reg, q, [ContainsName])
  {
    if Candidates(reg, q, ContainsName) == [] {
      assert Matching(reg, q, ContainsName) == [];
      forall i | 0 <= i < |reg| ensures !Like(reg[i].name, q, PrefixName) && !Like(reg[i].name, q, SuffixName) {
        PrefixAndSuffixAreLike(reg[i].name, q);
      }
      assert Candidates(reg, q, PrefixName) == [];
      assert Candidates(reg, q, SuffixName) == [];
      var p1, p2, p3 := NamePatterns[1..], NamePatterns[2..], NamePatterns[3..];
      assert p1[0] == PrefixName && p1[1..] == p2;
      assert p2[0] == SuffixName && p2[1..] == p3 && p3 == [];
      assert FuzzyCode(reg, q, p3) == None;
      assert FuzzyCode(reg, q, p2) == None;
      assert FuzzyCode(reg, q, p1) == None;
      assert [ContainsName][1..] == [];
    }
  }

  /** `get_stock_code_from_db` returns None exactly when no registry name contains the query
      (ASCII case folded, as LIKE does). */
  lemma CodeLookupNoneIff(reg: seq<RegistryEntry>, q: string)
    ensures CodeLookup(reg, q).None? <==> forall i :: 0 <= i < |reg| ==> !Like(reg[i].name, q, ContainsName)
  {
    ContainsPatternDecides(reg, q);
    if ExactCode(reg, q).Some? {
      var i :| 0 <= i < |reg| && reg[i].name == q;
      ExactIsLike(reg[i].name, q);
    }
  }

  /** A row named exactly `q` always wins, and the first such row decides. */
  lemma CodeLookupPrefersExact(reg: seq<RegistryEntry>, q: string, i: nat)
    requires i < |reg| && reg[i].name == q
    requires forall j :: 0 <= j < i ==> reg[j].name != q
    ensures CodeLookup(reg, q) == Some(reg[i].tsCode)
  {
    var k :| 0 <= k < |reg| && reg[k].name == q && reg[k].tsCode == ExactCode(reg, q).value
             && forall j :: 0 <= j < k ==> reg[j].name != q;
    assert k == i;
  }
}
