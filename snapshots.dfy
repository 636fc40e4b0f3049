/** The `sector_data` table of db.py: an append-only log of sector snapshots, and the lookup
    of `get_latest_sector_data`. `fetch_time` is whole seconds on one clock, so comparing the
    stored `%Y-%m-%d %H:%M:%S` strings is comparing these integers. */
module Snapshots {
  import opened Common
  import opened Records

  /** The `data_json` column: a JSON list of records, or text that does not decode. */
  datatype Payload = Decoded(stocks: seq<StockRecord>) | Corrupt

  datatype Snapshot = Snapshot(sector: string, payload: Payload, fetchTime: int)

  /** The pair `(data, fetch_time)` returned when a snapshot is found. */
  datatype Cached = Cached(stocks: seq<StockRecord>, fetchTime: int)

  /** `WHERE sector = ?`, in log order. */
  function OfSector(snaps: seq<Snapshot>, sector: string): seq<Snapshot> {
    if snaps == [] then []
    else
      var rest := OfSector(snaps[1..], sector);
      if snaps[0].sector == sector then [snaps[0]] + rest else rest
  }

  /** `AND fetch_time > ?`, in log order (strictly newer than the cutoff). */
  function FreshOnly(snaps: seq<Snapshot>, cutoff: int): seq<Snapshot> {
    if snaps == [] then []
    else
      var rest := FreshOnly(snaps[1..], cutoff);
      if snaps[0].fetchTime > cutoff then [snaps[0]] + rest else rest
  }

  /** `ORDER BY fetch_time DESC LIMIT 1`: a snapshot with the greatest fetch time; among equal
      times the earliest appended. */
  function Newest(snaps: seq<Snapshot>): Snapshot
    requires snaps != []
  {
    if |snaps| == 1 then snaps[0]
    else
      var r := Newest(snaps[1..]);
      if snaps[0].fetchTime >= r.fetchTime then snaps[0] else r
  }

  /** The rows of the sector are exactly the snapshots saved for it. */
  lemma {:induction false} OfSectorSpec(snaps: seq<Snapshot>, sector: string)
    ensures forall s :: s in OfSector(snaps, sector) <==> s in snaps && s.sector == sector
  {
    if snaps != [] {
      assert snaps == [snaps[0]] + snaps[1..];
      OfSectorSpec(snaps[1..], sector);
    }
  }

  /** The rows kept are exactly those strictly newer than the cutoff. */
  lemma {:induction false} FreshOnlySpec(snaps: seq<Snapshot>, cutoff: int)
    ensures forall s :: s in FreshOnly(snaps, cutoff) <==> s in snaps && s.fetchTime > cutoff
  {
    if snaps != [] {
      assert snaps == [snaps[0]] + snaps[1..];
      FreshOnlySpec(snaps[1..], cutoff);
    }
  }

  /** The row picked is one of them, and none is newer. */
  lemma {:induction false} NewestSpec(snaps: seq<Snapshot>)
    requires snaps != []
    ensures Newest(snaps) in snaps
    ensures forall s :: s in snaps ==> s.fetchTime <= Newest(snaps).fetchTime
  {
    if |snaps| > 1 {
      assert snaps == [snaps[0]] + snaps[1..];
      NewestSpec(snaps[1..]);
    }
  }

  /** `json.loads`, with the decode error answered by an empty list (db.py:293-298). */
  function Load(s: Snapshot): Cached {
    Cached(match s.payload case Decoded(stocks) => stocks case Corrupt => [], s.fetchTime)
  }

  /** `get_latest_sector_data(sector, max_age_minutes)` at time `now` (db.py:263-299): the newest
      snapshot newer than the cutoff; failing that, the newest snapshot of the sector at any
      age; failing that, nothing. */
  function LatestSectorData(snaps: seq<Snapshot>, sector: string, now: int, maxAgeMinutes: int): Option<Cached> {
    var mine := OfSector(snaps, sector);
    var recent := FreshOnly(mine, now - 60 * maxAgeMinutes);
    if recent != [] then Some(Load(Newest(recent)))
    else if mine != [] then Some(Load(Newest(mine)))
    else None
  }

  /** Restricting to snapshots newer than a cutoff does not change the newest one, as long as
      one of them is newer than the cutoff. */
  lemma {:induction false} NewestOfFresh(snaps: seq<Snapshot>, cutoff: int)
    requires exists s :: s in snaps && s.fetchTime > cutoff
    ensures FreshOnly(snaps, cutoff) != []
    ensures Newest(FreshOnly(snaps, cutoff)) == Newest(snaps)
  {
    var x, t := snaps[0], snaps[1..];
    assert snaps == [x] + t;
    if |snaps| == 1 {
      assert FreshOnly(snaps, cutoff) == [x];
      return;
    }
    var ft := FreshOnly(t, cutoff);
    FreshOnlySpec(t, cutoff);
    NewestSpec(t);
    assert FreshOnly(snaps, cutoff) == if x.fetchTime > cutoff then [x] + ft else ft;
    assert Newest(snaps) == if x.fetchTime >= Newest(t).fetchTime then x else Newest(t);
    if ft != [] {
      assert ft[0] in t && ft[0].fetchTime > cutoff;
      NewestOfFresh(t, cutoff);
      if x.fetchTime > cutoff {
        assert ([x] + ft)[1..] == ft;
      } else {
        assert ft[0].fetchTime <= Newest(t).fetchTime;
      }
    } else {
      assert Newest(t) in t;
      assert Newest(t).fetchTime <= cutoff;
    }
  }

  /** The lookup finds nothing exactly when the sector has never been saved. */
  lemma LatestNoneIff(snaps: seq<Snapshot>, sector: string, now: int, maxAgeMinutes: int)
    ensures LatestSectorData(snaps, sector, now, maxAgeMinutes).None?
        <==> forall i :: 0 <= i < |snaps| ==> snaps[i].sector != sector
  {
    var mine := OfSector(snaps, sector);
    OfSectorSpec(snaps, sector);
    if mine != [] {
      assert mine[0] in snaps;
    }
    if exists i :: 0 <= i < |snaps| && snaps[i].sector == sector {
      var i :| 0 <= i < |snaps| && snaps[i].sector == sector;
      assert snaps[i] in mine;
    }
  }

  /** Whatever `max_age_minutes` says, the result is the newest snapshot of the sector: a
      stale snapshot is handed back as a fallback, never refused. */
  lemma LatestIsNewest(snaps: seq<Snapshot>, sector: string, now: int, maxAgeMinutes: int)
    requires exists i :: 0 <= i < |snaps| && snaps[i].sector == sector
    ensures OfSector(snaps, sector) != []
    ensures LatestSectorData(snaps, sector, now, maxAgeMinutes) == Some(Load(Newest(OfSector(snaps, sector))))
  {
    var i :| 0 <= i < |snaps| && snaps[i].sector == sector;
    var mine := OfSector(snaps, sector);
    OfSectorSpec(snaps, sector);
    assert snaps[i] in mine;
    var cutoff := now - 60 * maxAgeMinutes;
    var recent := FreshOnly(mine, cutoff);
    FreshOnlySpec(mine, cutoff);
    if recent != [] {
      assert recent[0] in recent;
      NewestOfFresh(mine, cutoff);
      assert LatestSectorData(snaps, sector, now, maxAgeMinutes) == Some(Load(Newest(recent)));
    } else {
      assert LatestSectorData(snaps, sector, now, maxAgeMinutes) == Some(Load(Newest(mine)));
    }
  }

  /** Hence the age limit never changes the answer. */
  lemma LatestIgnoresMaxAge(snaps: seq<Snapshot>, sector: string, now: int, age1: int, age2: int)
    ensures LatestSectorData(snaps, sector, now, age1) == LatestSectorData(snaps, sector, now, age2)
  {
    if exists i :: 0 <= i < |snaps| && snaps[i].sector == sector {
      LatestIsNewest(snaps, sector, now, age1);
      LatestIsNewest(snaps, sector, now, age2);
    } else {
      LatestNoneIff(snaps, sector, now, age1);
      LatestNoneIff(snaps, sector, now, age2);
    }
  }

  /** A snapshot saved with the newest time of its sector is what the lookup returns next. */
  lemma LatestAfterSave(snaps: seq<Snapshot>, sector: string, stocks: seq<StockRecord>, t: int, now: int, maxAgeMinutes: int)
    requires forall i :: 0 <= i < |snaps| && snaps[i].sector == sector ==> snaps[i].fetchTime < t
    ensures LatestSectorData(snaps + [Snapshot(sector, Decoded(stocks), t)], sector, now, maxAgeMinutes)
         == Some(Cached(stocks, t))
  {
    var saved := snaps + [Snapshot(sector, Decoded(stocks), t)];
    assert saved[|snaps|].sector == sector;
    LatestIsNewest(saved, sector, now, maxAgeMinutes);
    var mine := OfSector(saved, sector);
    OfSectorSpec(saved, sector);
    assert Snapshot(sector, Decoded(stocks), t) in mine;
    NewestSpec(mine);
  }
}
