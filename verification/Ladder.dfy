/** Bucket arithmetic: five-minute buckets in hours, and cutoffs aligned to them. */
module Buckets {
  import opened Retention

  lemma FloorFive(t: int, c: int)
    requires c % FIVE_MINUTES == 0
    ensures Floor(t, FIVE_MINUTES) % FIVE_MINUTES == 0
    ensures Floor(t, FIVE_MINUTES) <= t < Floor(t, FIVE_MINUTES) + FIVE_MINUTES
    ensures t < c <==> Floor(t, FIVE_MINUTES) < c
    ensures t < c <==> Floor(t, FIVE_MINUTES) + FIVE_MINUTES <= c
  {
  }

  lemma FloorHour(t: int, c: int)
    requires c % ONE_HOUR == 0
    ensures Floor(t, ONE_HOUR) % ONE_HOUR == 0
    ensures Floor(t, ONE_HOUR) <= t < Floor(t, ONE_HOUR) + ONE_HOUR
    ensures t < c <==> Floor(t, ONE_HOUR) < c
    ensures t < c <==> Floor(t, ONE_HOUR) + ONE_HOUR <= c
  {
  }

  lemma FivesApart(a: int, b: int)
    requires a % FIVE_MINUTES == 0 && b % FIVE_MINUTES == 0 && a < b
    ensures a + FIVE_MINUTES <= b
  {
  }

  lemma HoursApart(a: int, b: int)
    requires a % ONE_HOUR == 0 && b % ONE_HOUR == 0 && a < b
    ensures a + ONE_HOUR <= b
  {
  }

  /** Whole hours are whole five-minute buckets. */
  lemma HourIsFives(h: int)
    requires h % ONE_HOUR == 0
    ensures h % FIVE_MINUTES == 0 && (h + ONE_HOUR) % FIVE_MINUTES == 0 && (h + ONE_HOUR) % ONE_HOUR == 0
  {
    var q := h / ONE_HOUR;
    assert h == 300 * (12 * q) && h + ONE_HOUR == 300 * (12 * q + 12) && h + ONE_HOUR == 3600 * (q + 1);
  }

  lemma FiveFloorUnique(t: int, b: int)
    requires b % FIVE_MINUTES == 0 && b <= t < b + FIVE_MINUTES
    ensures Floor(t, FIVE_MINUTES) == b
  {
  }

  lemma HourFloorUnique(t: int, h: int)
    requires h % ONE_HOUR == 0 && h <= t < h + ONE_HOUR
    ensures Floor(t, ONE_HOUR) == h
  {
  }

  /** A five-minute bucket lies in one hour. */
  lemma FiveInHour(b: int, h: int)
    requires b % FIVE_MINUTES == 0 && h % ONE_HOUR == 0
    requires h < b + FIVE_MINUTES && b < h + ONE_HOUR
    ensures h <= b && b + FIVE_MINUTES <= h + ONE_HOUR && Floor(b, ONE_HOUR) == h
  {
    HourIsFives(h);
    if b < h { FivesApart(b, h); }
    FivesApart(b, h + ONE_HOUR);
    HourFloorUnique(b, h);
  }
}

/** What the nightly runs keep: the tables are a function of every sample ever
    recorded and of the cutoffs reached (retention.py). */
module Ladder {
  import opened Prelude
  import opened Retention
  import opened Buckets

  /** The log has a sample of the series in the interval. */
  ghost predicate HasSample<V>(log: seq<Sample<V>>, key: Key, lo: int, hi: int) {
    exists s :: s in log && Within(s, key, lo, hi)
  }

  /** The buckets of one width that have a sample. */
  ghost function KeysOf<V>(log: seq<Sample<V>>, width: int): set<(Key, int)>
    requires width > 0
  {
    if log == [] then {}
    else
      var n := |log| - 1;
      KeysOf(log[..n], width) + {(log[n].key, Floor(log[n].ts, width))}
  }

  /** Every five-minute row the log could ever give. */
  ghost function FiveRows<V, A, R>(k: Kind<V, A, R>, log: seq<Sample<V>>): Rollup<R> {
    map g | g in KeysOf(log, FIVE_MINUTES) :: FiveRow(k, log, g)
  }

  ghost function FiveRow<V, A, R>(k: Kind<V, A, R>, log: seq<Sample<V>>, g: (Key, int)): R {
    k.RowOf(AggOf(k, log, g.0, g.1, g.1 + FIVE_MINUTES))
  }

  /** Every hourly row, each made of the five-minute rows of its hour. */
  ghost function HourRows<V, A, R>(k: Kind<V, A, R>, log: seq<Sample<V>>): Rollup<R> {
    map g | g in KeysOf(log, ONE_HOUR) :: HourRow(k, log, g)
  }

  ghost function HourRow<V, A, R>(k: Kind<V, A, R>, log: seq<Sample<V>>, g: (Key, int)): R {
    k.RowOf(SumRows(k, FiveRows(k, log), g.0, g.1, g.1 + ONE_HOUR))
  }

  ghost function Between<R>(t: Rollup<R>, lo: int, hi: int): Rollup<R> {
    map g | g in t && lo <= g.1 < hi :: t[g]
  }

  /** Where every sample of the log is, once runs have reached these cutoffs:
      raw from the first, five-minute rows below it, hourly rows below those,
      nothing below the last. */
  ghost function TablesOf<V, A, R>(k: Kind<V, A, R>, log: seq<Sample<V>>, c: Cuts): Store<V, R> {
    Store(KeepRaw(log, c.raw), Between(FiveRows(k, log), c.five, c.raw), Between(HourRows(k, log), c.hour, c.five))
  }

  ghost predicate Aligned(c: Cuts) {
    c.raw % FIVE_MINUTES == 0 && c.five % ONE_HOUR == 0
  }

  ghost predicate InOrder(c: Cuts) {
    Aligned(c) && c.five <= c.raw
  }

  /** No hour that tonight's fold takes is cut in two by the raw cutoff. */
  ghost predicate NoHourSplit(c: Cuts, d: Cuts) {
    var raw := Max(c.raw, d.raw);
    d.five <= raw || raw % ONE_HOUR == 0
  }

  /** The cutoffs reached after one more night. */
  ghost function Reached(c: Cuts, d: Cuts): Cuts {
    var raw := Max(c.raw, d.raw);
    Cuts(raw, Max(c.five, Min(d.five, raw)), Max(Min(c.hour, c.five), d.hour))
  }

  // -------------------------------------------------------------------- the log

  lemma {:induction false} KeyHasSample<V>(log: seq<Sample<V>>, width: int, g: (Key, int))
    requires width > 0
    ensures g in KeysOf(log, width) <==> exists s :: s in log && g == (s.key, Floor(s.ts, width))
    decreases |log|
  {
    if log != [] {
      var n := |log| - 1;
      assert log == log[..n] + [log[n]];
      KeyHasSample(log[..n], width, g);
    }
  }

  /** The five-minute buckets there are: aligned, and with a sample in them. */
  lemma {:induction false} FiveKeyIs<V>(log: seq<Sample<V>>, key: Key, b: int)
    ensures (key, b) in KeysOf(log, FIVE_MINUTES) <==> b % FIVE_MINUTES == 0 && HasSample(log, key, b, b + FIVE_MINUTES)
  {
    KeyHasSample(log, FIVE_MINUTES, (key, b));
    if (key, b) in KeysOf(log, FIVE_MINUTES) {
      var s :| s in log && (key, b) == (s.key, Floor(s.ts, FIVE_MINUTES));
      FloorFive(s.ts, 0);
      assert Within(s, key, b, b + FIVE_MINUTES);
    }
    if b % FIVE_MINUTES == 0 && HasSample(log, key, b, b + FIVE_MINUTES) {
      var s :| s in log && Within(s, key, b, b + FIVE_MINUTES);
      FiveFloorUnique(s.ts, b);
    }
  }

  lemma {:induction false} HourKeyIs<V>(log: seq<Sample<V>>, key: Key, h: int)
    ensures (key, h) in KeysOf(log, ONE_HOUR) <==> h % ONE_HOUR == 0 && HasSample(log, key, h, h + ONE_HOUR)
  {
    KeyHasSample(log, ONE_HOUR, (key, h));
    if (key, h) in KeysOf(log, ONE_HOUR) {
      var s :| s in log && (key, h) == (s.key, Floor(s.ts, ONE_HOUR));
      FloorHour(s.ts, 0);
      assert Within(s, key, h, h + ONE_HOUR);
    }
    if h % ONE_HOUR == 0 && HasSample(log, key, h, h + ONE_HOUR) {
      var s :| s in log && Within(s, key, h, h + ONE_HOUR);
      HourFloorUnique(s.ts, h);
    }
  }

  lemma {:induction false} KeepRawHas<V>(log: seq<Sample<V>>, c: int, s: Sample<V>)
    ensures s in KeepRaw(log, c) <==> s in log && s.ts >= c
    decreases |log|
  {
    if log != [] {
      var n := |log| - 1;
      assert log == log[..n] + [log[n]];
      KeepRawHas(log[..n], c, s);
    }
  }

  lemma {:induction false} KeepRawTwice<V>(log: seq<Sample<V>>, a: int, b: int)
    ensures KeepRaw(KeepRaw(log, a), b) == KeepRaw(log, Max(a, b))
    decreases |log|
  {
    if log != [] {
      var n := |log| - 1;
      KeepRawTwice(log[..n], a, b);
      var kept := KeepRaw(log[..n], a);
      if log[n].ts >= a {
        assert (kept + [log[n]])[..|kept|] == kept;
      } else {
        assert kept + [] == kept;
      }
    }
  }

  lemma {:induction false} KeepRawAgg<V, A, R>(k: Kind<V, A, R>, log: seq<Sample<V>>, c: int, key: Key, lo: int,
          hi: int)
    requires c <= lo
    ensures AggOf(k, KeepRaw(log, c), key, lo, hi) == AggOf(k, log, key, lo, hi)
    decreases |log|
  {
    if log != [] {
      var n := |log| - 1;
      KeepRawAgg(k, log[..n], c, key, lo, hi);
      var kept := KeepRaw(log[..n], c);
      if log[n].ts >= c {
        assert (kept + [log[n]])[..|kept|] == kept;
      } else {
        assert kept + [] == kept;
      }
    }
  }

  // ---------------------------------------------------------------- folding raw rows

  /** A fold that adds the rows of `t` from `mid` up to the cutoff to those below. */
  lemma FoldRawAs<V, A, R>(k: Kind<V, A, R>, raw: seq<Sample<V>>, cutoff: int, width: int, t: Rollup<R>, lo: int,
          mid: int)
    requires width > 0 && lo <= mid
    requires forall g :: g in RawGroups(raw, cutoff, width) <==> g in t && mid <= g.1 < cutoff
    requires forall g :: g in RawGroups(raw, cutoff, width) ==>
               RawRow(k, raw, g, width, cutoff) == t[g]
    ensures FoldRaw(k, raw, Between(t, lo, mid), cutoff, width) == Between(t, lo, Max(mid, cutoff))
    ensures forall g :: g in RawGroups(raw, cutoff, width) ==> g !in Between(t, lo, mid)
  {
  }

  lemma {:induction false} FiveGroups<V>(log: seq<Sample<V>>, from: int, cutoff: int, g: (Key, int))
    requires from % FIVE_MINUTES == 0 && cutoff % FIVE_MINUTES == 0
    ensures g in RawGroups(KeepRaw(log, from), cutoff, FIVE_MINUTES)
            <==> g in KeysOf(log, FIVE_MINUTES) && from <= g.1 < cutoff
  {
    var raw := KeepRaw(log, from);
    KeyHasSample(log, FIVE_MINUTES, g);
    if g in RawGroups(raw, cutoff, FIVE_MINUTES) {
      var s :| s in raw && s.ts < cutoff && g == (s.key, Floor(s.ts, FIVE_MINUTES));
      KeepRawHas(log, from, s);
      FloorFive(s.ts, from);
      FloorFive(s.ts, cutoff);
    }
    if g in KeysOf(log, FIVE_MINUTES) && from <= g.1 < cutoff {
      var s :| s in log && g == (s.key, Floor(s.ts, FIVE_MINUTES));
      KeepRawHas(log, from, s);
      FloorFive(s.ts, cutoff);
    }
  }

  lemma {:induction false} FiveSum<V, A, R>(k: Kind<V, A, R>, log: seq<Sample<V>>, from: int, cutoff: int,
          g: (Key, int))
    requires cutoff % FIVE_MINUTES == 0
    requires g in FiveRows(k, log) && from <= g.1 < cutoff
    ensures RawRow(k, KeepRaw(log, from), g, FIVE_MINUTES, cutoff) == FiveRows(k, log)[g]
  {
    FiveKeyIs(log, g.0, g.1);
    FivesApart(g.1, cutoff);
    KeepRawAgg(k, log, from, g.0, g.1, g.1 + FIVE_MINUTES);
  }

  /** Folding raw rows adds exactly the buckets between the old cutoff and the
      new, and meets none that is there. */
  lemma {:induction false} FoldRawKeepsSync<V, A, R>(k: Kind<V, A, R>, log: seq<Sample<V>>, c: Cuts, cutoff: int)
    requires InOrder(c) && cutoff % FIVE_MINUTES == 0
    ensures FoldRaw(k, KeepRaw(log, c.raw), Between(FiveRows(k, log), c.five, c.raw), cutoff, FIVE_MINUTES)
            == Between(FiveRows(k, log), c.five, Max(c.raw, cutoff))
    ensures forall g :: g in RawGroups(KeepRaw(log, c.raw), cutoff, FIVE_MINUTES) ==>
              g !in Between(FiveRows(k, log), c.five, c.raw)
  {
    var raw, t := KeepRaw(log, c.raw), FiveRows(k, log);
    forall g ensures g in RawGroups(raw, cutoff, FIVE_MINUTES) <==> g in t && c.raw <= g.1 < cutoff {
      FiveGroups(log, c.raw, cutoff, g);
    }
    forall g | g in RawGroups(raw, cutoff, FIVE_MINUTES)
      ensures RawRow(k, raw, g, FIVE_MINUTES, cutoff) == t[g]
    {
      FiveSum(k, log, c.raw, cutoff, g);
    }
    FoldRawAs(k, raw, cutoff, FIVE_MINUTES, t, c.five, c.raw);
  }

  // ------------------------------------------------------------ folding five-minute rows

  lemma FoldRowsAs<V, A, R>(k: Kind<V, A, R>, narrow: Rollup<R>, cutoff: int, width: int, t: Rollup<R>, lo: int,
          mid: int, hi: int)
    requires width > 0
    requires forall g :: g in RowGroups(narrow, cutoff, width) <==> g in t && mid <= g.1 < hi
    requires forall g :: g in RowGroups(narrow, cutoff, width) ==>
               WideRow(k, narrow, g, width, cutoff) == t[g]
    ensures FoldRows(k, narrow, Between(t, lo, mid), cutoff, width) == Between(t, mid, hi) + Between(t, lo, mid)
  {
    assert (map g | g in RowGroups(narrow, cutoff, width) ::
              WideRow(k, narrow, g, width, cutoff)) == Between(t, mid, hi);
  }

  /** An hour that starts below both cutoffs ends by both. */
  lemma HourWhole(h: int, cutoff: int, raw: int)
    requires h % ONE_HOUR == 0 && cutoff % ONE_HOUR == 0
    requires cutoff <= raw || raw % ONE_HOUR == 0
    requires h < Min(cutoff, raw)
    ensures h + ONE_HOUR <= Min(cutoff, raw)
  {
    HoursApart(h, cutoff);
    if raw < cutoff {
      HoursApart(h, raw);
    }
  }

  /** Rows outside the interval do not matter. */
  lemma SumBetween<V, A, R>(k: Kind<V, A, R>, t: Rollup<R>, from: int, to: int, key: Key, lo: int, hi: int)
    requires from <= lo && hi <= to
    ensures SumRows(k, Between(t, from, to), key, lo, hi) == SumRows(k, t, key, lo, hi)
  {
    SumRowsSame(k, Between(t, from, to), t, key, lo, hi);
  }

  lemma {:induction false} HourSum<V, A, R>(k: Kind<V, A, R>, log: seq<Sample<V>>, from: int, raw: int, cutoff: int,
          g: (Key, int))
    requires cutoff % ONE_HOUR == 0
    requires cutoff <= raw || raw % ONE_HOUR == 0
    requires g in HourRows(k, log) && from <= g.1 < Min(cutoff, raw)
    ensures WideRow(k, Between(FiveRows(k, log), from, raw), g, ONE_HOUR, cutoff) == HourRows(k, log)[g]
  {
    HourKeyIs(log, g.0, g.1);
    HourWhole(g.1, cutoff, raw);
    SumBetween(k, FiveRows(k, log), from, raw, g.0, g.1, g.1 + ONE_HOUR);
  }

  lemma {:induction false} HourGroups<V, R>(log: seq<Sample<V>>, t: Rollup<R>, from: int, raw: int, cutoff: int,
          g: (Key, int))
    requires t.Keys == KeysOf(log, FIVE_MINUTES)
    requires from % ONE_HOUR == 0 && cutoff % ONE_HOUR == 0
    requires cutoff <= raw || raw % ONE_HOUR == 0
    ensures g in RowGroups(Between(t, from, raw), cutoff, ONE_HOUR)
            <==> g in KeysOf(log, ONE_HOUR) && from <= g.1 < Min(cutoff, raw)
  {
    var five := Between(t, from, raw);
    if g in RowGroups(five, cutoff, ONE_HOUR) {
      var b :| b in five && b.1 < cutoff && g == (b.0, Floor(b.1, ONE_HOUR));
      HourOfFive(log, b, from, g);
    }
    if g in KeysOf(log, ONE_HOUR) && from <= g.1 < Min(cutoff, raw) {
      HourKeyIs(log, g.0, g.1);
      HourWhole(g.1, cutoff, raw);
      var b := FiveOfHour(log, g);
      assert b in five && b.1 < cutoff && g == (b.0, Floor(b.1, ONE_HOUR));
    }
  }

  lemma {:induction false} HourOfFive<V>(log: seq<Sample<V>>, b: (Key, int), from: int, g: (Key, int))
    requires b in KeysOf(log, FIVE_MINUTES) && from % ONE_HOUR == 0 && from <= b.1
    requires g == (b.0, Floor(b.1, ONE_HOUR))
    ensures g in KeysOf(log, ONE_HOUR) && from <= g.1 <= b.1
  {
    FiveKeyIs(log, b.0, b.1);
    var s :| s in log && Within(s, b.0, b.1, b.1 + FIVE_MINUTES);
    FloorHour(b.1, from);
    FiveInHour(b.1, g.1);
    assert Within(s, g.0, g.1, g.1 + ONE_HOUR);
    HourKeyIs(log, g.0, g.1);
  }

  lemma {:induction false} FiveOfHour<V>(log: seq<Sample<V>>, g: (Key, int)) returns (b: (Key, int))
    requires g in KeysOf(log, ONE_HOUR)
    ensures b in KeysOf(log, FIVE_MINUTES) && g == (b.0, Floor(b.1, ONE_HOUR)) && g.1 <= b.1 < g.1 + ONE_HOUR
  {
    HourKeyIs(log, g.0, g.1);
    var s :| s in log && Within(s, g.0, g.1, g.1 + ONE_HOUR);
    b := (s.key, Floor(s.ts, FIVE_MINUTES));
    KeyHasSample(log, FIVE_MINUTES, b);
    FloorFive(s.ts, 0);
    FiveInHour(b.1, g.1);
  }

  /** Folding five-minute rows into hours, when no hour is split. */
  lemma {:induction false} FoldRowsKeepsSync<V, A, R>(k: Kind<V, A, R>, log: seq<Sample<V>>, c: Cuts, raw: int,
          cutoff: int)
    requires InOrder(c) && cutoff % ONE_HOUR == 0
    requires cutoff <= raw || raw % ONE_HOUR == 0
    ensures FoldRows(k, Between(FiveRows(k, log), c.five, raw), Between(HourRows(k, log), c.hour, c.five),
                     cutoff, ONE_HOUR)
            == Between(HourRows(k, log), c.five, Min(cutoff, raw)) + Between(HourRows(k, log), c.hour, c.five)
  {
    var five, t := Between(FiveRows(k, log), c.five, raw), HourRows(k, log);
    forall g ensures g in RowGroups(five, cutoff, ONE_HOUR) <==> g in t && c.five <= g.1 < Min(cutoff, raw) {
      HourGroups(log, FiveRows(k, log), c.five, raw, cutoff, g);
    }
    forall g | g in RowGroups(five, cutoff, ONE_HOUR)
      ensures WideRow(k, five, g, ONE_HOUR, cutoff) == t[g]
    {
      HourSum(k, log, c.five, raw, cutoff, g);
    }
    FoldRowsAs(k, five, cutoff, ONE_HOUR, t, c.hour, c.five, Min(cutoff, raw));
  }

  // ------------------------------------------------------------------- one night

  lemma KeepRowsBetween<R>(t: Rollup<R>, lo: int, hi: int, cutoff: int)
    ensures KeepRows(Between(t, lo, hi), cutoff) == Between(t, Max(lo, Min(cutoff, hi)), hi)
  {
  }

  lemma JoinedHours<R>(t: Rollup<R>, lo: int, mid: int, hi: int, cutoff: int)
    ensures KeepRows(Between(t, mid, hi) + Between(t, lo, mid), cutoff)
            == Between(t, Max(Min(lo, mid), cutoff), Max(mid, hi))
  {
  }

  /** One night takes tables that hold the whole log to tables that hold the
      whole log at the new cutoffs. */
  lemma {:induction false} NightKeepsSync<V, A, R>(k: Kind<V, A, R>, log: seq<Sample<V>>, c: Cuts, d: Cuts)
    requires InOrder(c) && Aligned(d) && NoHourSplit(c, d)
    ensures InOrder(Reached(c, d))
    ensures Night(k, TablesOf(k, log, c), d) == TablesOf(k, log, Reached(c, d))
  {
    var e := Reached(c, d);
    FoldRawKeepsSync(k, log, c, d.raw);
    KeepRawTwice(log, c.raw, d.raw);
    FoldRowsKeepsSync(k, log, c, e.raw, d.five);
    KeepRowsBetween(FiveRows(k, log), c.five, e.raw, d.five);
    JoinedHours(HourRows(k, log), c.hour, c.five, Min(d.five, e.raw), d.hour);
  }

  // ------------------------------------------------------------------ whole runs

  datatype Event<V> = Recorded(s: Sample<V>) | Ran(cuts: Cuts)

  ghost function StoreAfter<V, A, R>(k: Kind<V, A, R>, evs: seq<Event<V>>): Store<V, R> {
    if evs == [] then Store([], map[], map[])
    else
      var before := StoreAfter(k, evs[..|evs| - 1]);
      match evs[|evs| - 1]
      case Recorded(s) => before.(raw := before.raw + [s])
      case Ran(d) => Night(k, before, d)
  }

  /** Every sample ever recorded, in order. */
  ghost function LogOf<V>(evs: seq<Event<V>>): seq<Sample<V>> {
    if evs == [] then []
    else
      var before := LogOf(evs[..|evs| - 1]);
      match evs[|evs| - 1]
      case Recorded(s) => before + [s]
      case Ran(_) => before
  }

  const START := Cuts(0, 0, 0)

  ghost function ReachedBy<V>(evs: seq<Event<V>>): Cuts {
    if evs == [] then START
    else
      var before := ReachedBy(evs[..|evs| - 1]);
      match evs[|evs| - 1]
      case Recorded(_) => before
      case Ran(d) => Reached(before, d)
  }

  /** Samples are stamped no earlier than the last raw cutoff, and no night's
      fold splits an hour. */
  ghost predicate Fair<V>(evs: seq<Event<V>>) {
    evs == [] ||
    (var before := evs[..|evs| - 1];
     Fair(before) &&
     match evs[|evs| - 1]
     case Recorded(s) => s.ts >= ReachedBy(before).raw
     case Ran(d) => Aligned(d) && NoHourSplit(ReachedBy(before), d))
  }

  /** A sample past the cutoff does not touch the buckets below it. */
  lemma {:induction false} OldFiveStays<V, A, R>(k: Kind<V, A, R>, log: seq<Sample<V>>, cutoff: int, s: Sample<V>,
          g: (Key, int))
    requires cutoff % FIVE_MINUTES == 0 && s.ts >= cutoff && g.1 < cutoff
    ensures g in FiveRows(k, log + [s]) <==> g in FiveRows(k, log)
    ensures g in FiveRows(k, log) ==> FiveRows(k, log + [s])[g] == FiveRows(k, log)[g]
  {
    var more := log + [s];
    assert more[..|log|] == log && more[|log|] == s;
    FiveKeyIs(log, g.0, g.1);
    FiveKeyIs(more, g.0, g.1);
    if g.1 % FIVE_MINUTES == 0 {
      FivesApart(g.1, cutoff);
      assert !Within(s, g.0, g.1, g.1 + FIVE_MINUTES);
      assert forall x :: x in more <==> x in log || x == s;
    }
  }

  lemma {:induction false} OldSumStays<V, A, R>(k: Kind<V, A, R>, log: seq<Sample<V>>, cutoff: int, s: Sample<V>,
          key: Key, lo: int, hi: int)
    requires cutoff % FIVE_MINUTES == 0 && s.ts >= cutoff && hi <= cutoff
    ensures SumRows(k, FiveRows(k, log + [s]), key, lo, hi) == SumRows(k, FiveRows(k, log), key, lo, hi)
  {
    var t, u := FiveRows(k, log + [s]), FiveRows(k, log);
    forall b | lo <= b < hi
      ensures (key, b) in t <==> (key, b) in u
      ensures (key, b) in t ==> t[(key, b)] == u[(key, b)]
    {
      OldFiveStays(k, log, cutoff, s, (key, b));
    }
    SumRowsSame(k, t, u, key, lo, hi);
  }

  lemma {:induction false} OldHourKeyStays<V>(log: seq<Sample<V>>, cutoff: int, s: Sample<V>, g: (Key, int))
    requires cutoff % ONE_HOUR == 0 && s.ts >= cutoff && g.1 < cutoff
    ensures g in KeysOf(log + [s], ONE_HOUR) <==> g in KeysOf(log, ONE_HOUR)
    ensures g in KeysOf(log, ONE_HOUR) ==> g.1 + ONE_HOUR <= cutoff
  {
    var more := log + [s];
    assert forall x :: x in more <==> x in log || x == s;
    HourKeyIs(log, g.0, g.1);
    HourKeyIs(more, g.0, g.1);
    if g.1 % ONE_HOUR == 0 {
      HoursApart(g.1, cutoff);
      assert !Within(s, g.0, g.1, g.1 + ONE_HOUR);
    }
  }

  lemma SameSumSameHour<V, A, R>(k: Kind<V, A, R>, log: seq<Sample<V>>, more: seq<Sample<V>>, g: (Key, int))
    requires g in HourRows(k, log) && g in HourRows(k, more)
    requires SumRows(k, FiveRows(k, more), g.0, g.1, g.1 + ONE_HOUR)
             == SumRows(k, FiveRows(k, log), g.0, g.1, g.1 + ONE_HOUR)
    ensures HourRows(k, more)[g] == HourRows(k, log)[g]
  {
  }

  lemma OldHourStays<V, A, R>(k: Kind<V, A, R>, log: seq<Sample<V>>, cutoff: int, raw: int, s: Sample<V>, g: (Key, int))
    requires cutoff % ONE_HOUR == 0 && raw % FIVE_MINUTES == 0 && cutoff <= raw && s.ts >= raw && g.1 < cutoff
    ensures g in HourRows(k, log + [s]) <==> g in HourRows(k, log)
    ensures g in HourRows(k, log) ==> HourRows(k, log + [s])[g] == HourRows(k, log)[g]
  {
    OldHourKeyStays(log, cutoff, s, g);
    if g in HourRows(k, log) {
      OldSumStays(k, log, raw, s, g.0, g.1, g.1 + ONE_HOUR);
      SameSumSameHour(k, log, log + [s], g);
    }
  }

  lemma SameBetween<R>(t: Rollup<R>, u: Rollup<R>, lo: int, hi: int)
    requires forall g: (Key, int) :: g.1 < hi ==> (g in t <==> g in u)
    requires forall g: (Key, int) :: g.1 < hi && g in u ==> t[g] == u[g]
    ensures Between(t, lo, hi) == Between(u, lo, hi)
  {
  }

  lemma {:induction false} RecordKeepsSync<V, A, R>(k: Kind<V, A, R>, log: seq<Sample<V>>, c: Cuts, s: Sample<V>)
    requires InOrder(c) && s.ts >= c.raw
    ensures TablesOf(k, log + [s], c) == TablesOf(k, log, c).(raw := KeepRaw(log, c.raw) + [s])
  {
    var more := log + [s];
    assert more[..|log|] == log;
    forall g: (Key, int) | g.1 < c.raw
      ensures g in FiveRows(k, more) <==> g in FiveRows(k, log)
      ensures g in FiveRows(k, log) ==> FiveRows(k, more)[g] == FiveRows(k, log)[g]
    {
      OldFiveStays(k, log, c.raw, s, g);
    }
    forall g: (Key, int) | g.1 < c.five
      ensures g in HourRows(k, more) <==> g in HourRows(k, log)
      ensures g in HourRows(k, log) ==> HourRows(k, more)[g] == HourRows(k, log)[g]
    {
      OldHourStays(k, log, c.five, c.raw, s, g);
    }
    SameBetween(FiveRows(k, more), FiveRows(k, log), c.five, c.raw);
    SameBetween(HourRows(k, more), HourRows(k, log), c.hour, c.five);
  }

  /** Along every fair run of recordings and nights, the three tables are a
      function of the samples recorded and the cutoffs reached: nothing is lost,
      nothing is counted twice, and no fold ever meets a row that is there. */
  lemma {:induction false} TablesAreAFunctionOfTheLog<V, A, R>(k: Kind<V, A, R>, evs: seq<Event<V>>)
    requires Fair(evs)
    ensures InOrder(ReachedBy(evs))
    ensures StoreAfter(k, evs) == TablesOf(k, LogOf(evs), ReachedBy(evs))
    decreases |evs|
  {
    if evs == [] {
      assert Between(FiveRows(k, []), 0, 0) == map[] && Between(HourRows(k, []), 0, 0) == map[];
    } else {
      var before := evs[..|evs| - 1];
      TablesAreAFunctionOfTheLog(k, before);
      match evs[|evs| - 1]
      case Recorded(s) => RecordKeepsSync(k, LogOf(before), ReachedBy(before), s);
      case Ran(d) => NightKeepsSync(k, LogOf(before), ReachedBy(before), d);
    }
  }

  /** What an earlier night did makes no difference to what a later one leaves: it
      may run twice, or not at all. */
  lemma {:induction false} SkippedNightChangesNothing<V, A, R>(k: Kind<V, A, R>, log: seq<Sample<V>>, c: Cuts,
          d: Cuts, e: Cuts)
    requires InOrder(c) && Aligned(d) && Aligned(e) && NoHourSplit(c, d) && NoHourSplit(c, e)
    requires d.raw <= e.raw && d.five <= e.five && d.hour <= e.hour
    ensures Night(k, Night(k, TablesOf(k, log, c), d), e) == Night(k, TablesOf(k, log, c), e)
  {
    ReachedTwice(c, d, e);
    NightKeepsSync(k, log, c, d);
    NightKeepsSync(k, log, Reached(c, d), e);
    NightKeepsSync(k, log, c, e);
  }

  lemma ReachedTwice(c: Cuts, d: Cuts, e: Cuts)
    requires d.raw <= e.raw && d.five <= e.five && d.hour <= e.hour
    ensures Reached(Reached(c, d), e) == Reached(c, e)
    ensures NoHourSplit(Reached(c, d), e) <==> NoHourSplit(c, e)
  {
  }

  /** With raw rows kept no longer than five-minute rows, no night splits an hour. */
  lemma {:induction false} SettingsKeepHoursWhole(started: int, rawDays: int, fiveDays: int, hourlyDays: int, c: Cuts)
    requires rawDays <= fiveDays
    ensures Aligned(CutsAt(started, rawDays, fiveDays, hourlyDays))
    ensures NoHourSplit(c, CutsAt(started, rawDays, fiveDays, hourlyDays))
  {
    var r, f := started - rawDays * ONE_DAY, started - fiveDays * ONE_DAY;
    FloorFive(r, 0);
    FloorHour(f, 0);
    HourIsFives(Floor(f, ONE_HOUR));
    FloorFive(r, Floor(f, ONE_HOUR));
  }

  // ------------------------------------------------------ reading an interval back

  /** Of the rows between two cutoffs, those in an interval. */
  lemma {:induction false} SumClipped<V, A(!new), R>(k: Kind<V, A, R>, t: Rollup<R>, from: int, to: int, key: Key,
                                                   lo: int, a: int, b: int, hi: int)
    requires Lawful(k) && lo <= a <= b <= hi
    requires a == Min(Max(from, lo), hi) && b == Min(Max(to, lo), hi)
    ensures SumRows(k, Between(t, from, to), key, lo, hi) == SumRows(k, t, key, a, b)
  {
    NothingOutside(k, t, from, to, key, lo, a);
    NothingOutside(k, t, from, to, key, b, hi);
    MiddlePart(k, Between(t, from, to), key, lo, a, b, hi);
    if a < b {
      SumBetween(k, t, from, to, key, a, b);
    }
  }

  lemma {:induction false} NothingOutside<V, A, R>(k: Kind<V, A, R>, t: Rollup<R>, from: int, to: int, key: Key,
          lo: int, hi: int)
    requires hi <= from || to <= lo || hi <= lo
    ensures SumRows(k, Between(t, from, to), key, lo, hi) == k.zero
  {
    SumRowsSame(k, Between(t, from, to), map[], key, lo, hi);
    NoRows(k, key, lo, hi);
  }

  lemma {:induction false} MiddlePart<V, A(!new), R>(k: Kind<V, A, R>, u: Rollup<R>, key: Key, lo: int, a: int,
          b: int, hi: int)
    requires Lawful(k) && lo <= a <= b <= hi
    requires SumRows(k, u, key, lo, a) == k.zero && SumRows(k, u, key, b, hi) == k.zero
    ensures SumRows(k, u, key, lo, hi) == SumRows(k, u, key, a, b)
  {
    SumRowsSplit(k, u, key, lo, a, hi);
    SumRowsSplit(k, u, key, a, b, hi);
    ZeroFirst(k, SumRows(k, u, key, a, b));
  }

  lemma ZeroFirst<V, A(!new), R>(k: Kind<V, A, R>, a: A)
    requires Lawful(k)
    ensures k.Plus(k.zero, a) == a == k.Plus(a, k.zero)
  {
    assert k.Plus(k.zero, a) == k.Plus(a, k.zero);
  }

  /** Of the samples from a cutoff on, those in an interval. */
  lemma {:induction false} RawClipped<V, A(!new), R>(k: Kind<V, A, R>, log: seq<Sample<V>>, cutoff: int, key: Key,
                                                   lo: int, q: int, hi: int)
    requires Lawful(k) && lo <= hi && q == Min(Max(cutoff, lo), hi)
    ensures AggOf(k, KeepRaw(log, cutoff), key, lo, hi) == AggOf(k, log, key, q, hi)
  {
    var raw := KeepRaw(log, cutoff);
    AggSplit(k, raw, key, lo, q, hi);
    NothingKept(k, log, cutoff, key, lo, q);
    ZeroFirst(k, AggOf(k, raw, key, q, hi));
    if q < cutoff {
      AggEmpty(k, raw, key, q, hi);
      AggEmpty(k, log, key, q, hi);
    } else {
      KeepRawAgg(k, log, cutoff, key, q, hi);
    }
  }

  lemma {:induction false} NothingKept<V, A, R>(k: Kind<V, A, R>, log: seq<Sample<V>>, cutoff: int, key: Key,
          lo: int, hi: int)
    requires hi <= cutoff || hi <= lo
    ensures AggOf(k, KeepRaw(log, cutoff), key, lo, hi) == k.zero
  {
    forall s | s in KeepRaw(log, cutoff) ensures !Within(s, key, lo, hi) {
      KeepRawHas(log, cutoff, s);
    }
    AggEmpty(k, KeepRaw(log, cutoff), key, lo, hi);
  }
}
