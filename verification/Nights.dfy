/** The nights the program's settings give: which are safe, what they keep, and
    what the others lose (retention.py). */
module Nights {
  import opened Retention
  import opened Buckets
  import opened Ladder

  lemma FivesAdd(a: int, b: int)
    requires a % FIVE_MINUTES == 0 && b % FIVE_MINUTES == 0
    ensures (a + b) % FIVE_MINUTES == 0
  {
    assert a + b == 300 * (a / 300 + b / 300);
  }

  /** Some days earlier the clock shows the same hour. */
  lemma HourDaysBefore(h: int, days: int)
    requires h % ONE_HOUR == 0
    ensures (h - days * ONE_DAY) % ONE_HOUR == 0
  {
    assert h - days * ONE_DAY == 3600 * (h / 3600 - 24 * days);
  }

  /** An instant some way into an hour, and the bucket it falls in. */
  lemma IntoHour(h: int, m: int)
    requires h % ONE_HOUR == 0 && 0 <= m < ONE_HOUR
    ensures Floor(h + m, ONE_HOUR) == h && Floor(h + m, FIVE_MINUTES) == h + Floor(m, FIVE_MINUTES)
    ensures 0 <= Floor(m, FIVE_MINUTES) <= m && Floor(m, FIVE_MINUTES) + FIVE_MINUTES <= ONE_HOUR
    ensures Floor(m, FIVE_MINUTES) > 0 <==> m >= FIVE_MINUTES
  {
    HourFloorUnique(h + m, h);
    HourIsFives(h);
    HourIsFives(0);
    FloorFive(m, ONE_HOUR);
    FloorFive(m, 0);
    FloorFive(m, FIVE_MINUTES);
    FivesAdd(h, Floor(m, FIVE_MINUTES));
    FiveFloorUnique(h + m, h + Floor(m, FIVE_MINUTES));
  }

  // -------------------------------------------------------------- cutoffs of a night

  /** How far into an hour a night's raw cutoff falls. */
  function Into(started: int): int {
    Floor(started % ONE_HOUR, FIVE_MINUTES)
  }

  /** The three cutoffs of one night, by the hour it starts in. */
  lemma {:induction false} CutsInHours(started: int, rawDays: int, fiveDays: int, hourlyDays: int)
    ensures var c, top := CutsAt(started, rawDays, fiveDays, hourlyDays), Floor(started, ONE_HOUR);
            && top <= started && (top - rawDays * ONE_DAY) % ONE_HOUR == 0
            && c.raw == top - rawDays * ONE_DAY + Into(started)
            && c.five == top - fiveDays * ONE_DAY && c.hour == top - hourlyDays * ONE_DAY
    ensures 0 <= Into(started) && Into(started) + FIVE_MINUTES <= ONE_HOUR
    ensures Into(started) > 0 <==> started % ONE_HOUR >= FIVE_MINUTES
  {
    var top, m := Floor(started, ONE_HOUR), started % ONE_HOUR;
    FloorHour(started, 0);
    HourDaysBefore(top, rawDays);
    HourDaysBefore(top, fiveDays);
    HourDaysBefore(top, hourlyDays);
    IntoHour(top - rawDays * ONE_DAY, m);
    IntoHour(top - fiveDays * ONE_DAY, m);
    IntoHour(top - hourlyDays * ONE_DAY, m);
  }

  /** Exactly which nights split an hour: those five minutes or more past the hour
      with raw rows kept longer than five-minute rows. */
  lemma {:induction false} SettingsSplitExactly(started: int, rawDays: int, fiveDays: int, hourlyDays: int)
    requires CutsAt(started, rawDays, fiveDays, hourlyDays).raw > 0
    ensures NoHourSplit(START, CutsAt(started, rawDays, fiveDays, hourlyDays))
            <==> rawDays <= fiveDays || started % ONE_HOUR < FIVE_MINUTES
  {
    CutsInHours(started, rawDays, fiveDays, hourlyDays);
    OnTheHour(Floor(started, ONE_HOUR) - rawDays * ONE_DAY, Into(started));
  }

  lemma OnTheHour(h: int, m: int)
    requires h % ONE_HOUR == 0 && 0 <= m < ONE_HOUR
    ensures (h + m) % ONE_HOUR == m
  {
    HourFloorUnique(h + m, h);
  }

  /** One night of the program: when it starts, and the days kept of each kind of row. */
  datatype Settings = Settings(started: int, rawDays: int, fiveDays: int, hourlyDays: int)

  function CutsOf(n: Settings): Cuts {
    CutsAt(n.started, n.rawDays, n.fiveDays, n.hourlyDays)
  }

  predicate IsSafeNight(n: Settings, d: Cuts) {
    n.rawDays <= n.fiveDays && d == CutsOf(n)
  }

  /** A night with raw rows kept no longer than five-minute rows. */
  ghost predicate SafeNight(d: Cuts) {
    exists n :: IsSafeNight(n, d)
  }

  /** Every night is one of the program's, and no sample is stamped before the raw
      cutoff reached. */
  ghost predicate ProgramRun<V>(evs: seq<Event<V>>) {
    forall i :: 0 <= i < |evs| ==>
      match evs[i]
      case Recorded(s) => s.ts >= ReachedBy(evs[..i]).raw
      case Ran(d) => SafeNight(d)
  }

  /** The program's own runs are fair, whatever the settings are each night. */
  lemma {:induction false} ProgramRunsAreFair<V>(evs: seq<Event<V>>)
    requires ProgramRun(evs)
    ensures Fair(evs)
    decreases |evs|
  {
    if evs != [] {
      var n := |evs| - 1;
      forall i | 0 <= i < n ensures evs[..n][..i] == evs[..i] {
      }
      ProgramRunsAreFair(evs[..n]);
      if evs[n].Ran? {
        assert SafeNight(evs[n].cuts);
        var x :| IsSafeNight(x, evs[n].cuts);
        SettingsKeepHoursWhole(x.started, x.rawDays, x.fiveDays, x.hourlyDays, ReachedBy(evs[..n]));
      }
    }
  }

  /** A night in the first five minutes of an hour, with any settings. */
  ghost predicate NightOnTheHour(d: Cuts) {
    exists n: Settings :: n.started % ONE_HOUR < FIVE_MINUTES && d == CutsOf(n)
  }

  ghost predicate RunOnTheHour<V>(evs: seq<Event<V>>) {
    forall i :: 0 <= i < |evs| ==>
      match evs[i]
      case Recorded(s) => s.ts >= ReachedBy(evs[..i]).raw
      case Ran(d) => NightOnTheHour(d)
  }

  lemma OnTheHourStays(c: Cuts, d: Cuts)
    requires c.raw % ONE_HOUR == 0 && NightOnTheHour(d)
    ensures Aligned(d) && NoHourSplit(c, d) && Reached(c, d).raw % ONE_HOUR == 0
  {
    var x: Settings :| x.started % ONE_HOUR < FIVE_MINUTES && d == CutsOf(x);
    CutsInHours(x.started, x.rawDays, x.fiveDays, x.hourlyDays);
    HourDaysBefore(Floor(x.started, ONE_HOUR), x.fiveDays);
    FloorHour(x.started, 0);
    HourIsFives(d.raw);
  }

  /** Runs whose nights all start so are fair as well, also with raw rows kept the longest. */
  lemma {:induction false} RunsOnTheHourAreFair<V>(evs: seq<Event<V>>)
    requires RunOnTheHour(evs)
    ensures Fair(evs) && ReachedBy(evs).raw % ONE_HOUR == 0
    decreases |evs|
  {
    if evs != [] {
      var n := |evs| - 1;
      forall i | 0 <= i < n ensures evs[..n][..i] == evs[..i] {
      }
      RunsOnTheHourAreFair(evs[..n]);
      if evs[n].Ran? {
        OnTheHourStays(ReachedBy(evs[..n]), evs[n].cuts);
      }
    }
  }

  // ------------------------------------------------------------ when it goes wrong

  lemma {:induction false} NothingBelowZero<V, A, R>(k: Kind<V, A, R>, log: seq<Sample<V>>)
    ensures TablesOf(k, log, START) == Store(log, map[], map[])
  {
    KeepRawAll(log);
    assert Between(FiveRows(k, log), 0, 0) == map[] && Between(HourRows(k, log), 0, 0) == map[];
  }

  lemma {:induction false} KeepRawAll<V>(log: seq<Sample<V>>)
    ensures KeepRaw(log, 0) == log
    decreases |log|
  {
    if log != [] {
      KeepRawAll(log[..|log| - 1]);
    }
  }

  lemma KeepRawPair<V>(a: Sample<V>, b: Sample<V>, c: int)
    ensures KeepRaw([b], c) == if b.ts < c then [] else [b]
    ensures KeepRaw([a, b], c) == (if a.ts < c then [] else [a]) + (if b.ts < c then [] else [b])
  {
    assert [a, b][..1] == [a] && [a][..0] == [] && [b][..0] == [];
  }

  lemma FoldRawOne<V, A, R>(k: Kind<V, A, R>, log: seq<Sample<V>>, cutoff: int, width: int, s: Sample<V>)
    requires width > 0 && s in log && s.ts < cutoff && forall x :: x in log && x.ts < cutoff ==> x == s
    ensures var g := (s.key, Floor(s.ts, width));
            FoldRaw(k, log, map[], cutoff, width) == map[g := RawRow(k, log, g, width, cutoff)]
  {
    assert RawGroups(log, cutoff, width) == {(s.key, Floor(s.ts, width))};
  }

  lemma FoldRowsOne<V, A, R>(k: Kind<V, A, R>, g: (Key, int), row: R, wide: Rollup<R>, cutoff: int, width: int)
    requires width > 0 && g.1 < cutoff
    ensures var h := (g.0, Floor(g.1, width));
            FoldRows(k, map[g := row], wide, cutoff, width) ==
            map[h := WideRow(k, map[g := row], h, width, cutoff)] + wide
  {
    var h := (g.0, Floor(g.1, width));
    var groups := RowGroups(map[g := row], cutoff, width);
    forall x ensures x in groups <==> x == h {
      assert g in map[g := row];
    }
    assert groups == {h};
  }

  lemma NightIs<V, A, R>(k: Kind<V, A, R>, s: Store<V, R>, c: Cuts, five: Rollup<R>, hour: Rollup<R>)
    requires FoldRaw(k, s.raw, s.five, c.raw, FIVE_MINUTES) == five
    requires FoldRows(k, five, s.hour, c.five, ONE_HOUR) == hour
    ensures Night(k, s, c) == Store(KeepRaw(s.raw, c.raw), KeepRows(five, c.five), KeepRows(hour, c.hour))
  {
  }

  lemma KeepOne<R>(g: (Key, int), r: R, cutoff: int)
    ensures KeepRows(map[g := r], cutoff) == if g.1 >= cutoff then map[g := r] else map[]
  {
  }

  /** The row one sample makes on its own. */
  ghost function LoneRow<V, A, R>(k: Kind<V, A, R>, v: V): R {
    k.RowOf(k.One(v))
  }

  lemma LoneAgg<V, A(!new), R>(k: Kind<V, A, R>, log: seq<Sample<V>>, i: nat, key: Key, lo: int, hi: int)
    requires Lawful(k) && i < |log| <= 2 && Within(log[i], key, lo, hi)
    requires forall j :: 0 <= j < |log| && j != i ==> !Within(log[j], key, lo, hi)
    ensures AggOf(k, log, key, lo, hi) == k.One(log[i].value)
  {
    assert k.Plus(k.zero, k.One(log[i].value)) == k.Plus(k.One(log[i].value), k.zero);
    assert AggOf(k, [], key, lo, hi) == k.zero;
    var first := [log[0]];
    assert first[..0] == [];
    assert AggOf(k, first, key, lo, hi)
           == if Within(log[0], key, lo, hi) then k.Plus(k.zero, k.One(log[0].value)) else k.zero;
    if |log| == 1 {
      assert log == first;
    } else {
      assert log[..1] == first;
    }
  }

  lemma FoldLoneRaw<V, A(!new), R>(k: Kind<V, A, R>, log: seq<Sample<V>>, i: nat, cutoff: int)
    requires Lawful(k) && i < |log| <= 2 && log[i].ts < cutoff && log[i].ts + FIVE_MINUTES >= cutoff
    requires forall j :: 0 <= j < |log| && j != i ==> log[j].ts >= cutoff
    requires Floor(log[i].ts, FIVE_MINUTES) == log[i].ts
    ensures FoldRaw(k, log, map[], cutoff, FIVE_MINUTES) == map[(log[i].key, log[i].ts) := LoneRow(k, log[i].value)]
  {
    var s := log[i];
    FoldRawOne(k, log, cutoff, FIVE_MINUTES, s);
    LoneAgg(k, log, i, s.key, s.ts, cutoff);
  }

  lemma FoldLoneRow<V, A(!new), R>(k: Kind<V, A, R>, key: Key, b: int, row: R, h: int, wide: Rollup<R>, cutoff: int)
    requires Lawful(k) && h <= b < h + ONE_HOUR <= cutoff && Floor(b, ONE_HOUR) == h
    ensures FoldRows(k, map[(key, b) := row], wide, cutoff, ONE_HOUR) == map[(key, h) := k.RowOf(k.OfRow(row))] + wide
  {
    FoldRowsOne(k, (key, b), row, wide, cutoff, ONE_HOUR);
    SumOneRow(k, map[(key, b) := row], key, b, h, h + ONE_HOUR);
  }

  /** The row that is all that is left of the hour. */
  ghost function FirstAlone<V, A, R>(k: Kind<V, A, R>, log: seq<Sample<V>>): R
    requires log != []
  {
    k.RowOf(k.OfRow(LoneRow(k, log[0].value)))
  }

  ghost function LeftAfterOne<V, A, R>(k: Kind<V, A, R>, log: seq<Sample<V>>, h: int): Store<V, R>
    requires |log| == 2
  {
    Store([log[1]], map[], map[(log[0].key, h) := FirstAlone(k, log)])
  }

  /** A night whose raw cutoff falls inside the hour: the sample below it is in
      the hourly row, alone, and the other is still raw. */
  lemma {:induction false} FirstNightSplits<V, A(!new), R>(k: Kind<V, A, R>, log: seq<Sample<V>>, h: int, c: Cuts)
    requires Lawful(k) && h + FIVE_MINUTES <= c.raw < h + ONE_HOUR <= c.five && c.hour <= h
    requires |log| == 2 && log[0].ts == c.raw - FIVE_MINUTES && log[1].ts == c.raw
    requires Floor(log[0].ts, FIVE_MINUTES) == log[0].ts && Floor(log[0].ts, ONE_HOUR) == h
    ensures Night(k, Store(log, map[], map[]), c) == LeftAfterOne(k, log, h)
  {
    var key, row := log[0].key, LoneRow(k, log[0].value);
    FoldLoneRaw(k, log, 0, c.raw);
    FoldLoneRow(k, key, log[0].ts, row, h, map[], c.five);
    var r := k.RowOf(k.OfRow(row));
    assert log == [log[0], log[1]];
    KeepRawPair(log[0], log[1], c.raw);
    NightIs(k, Store(log, map[], map[]), c, map[(key, log[0].ts) := row], map[(key, h) := r]);
    KeepOne((key, log[0].ts as int), row, c.five);
    KeepOne((key, h), r, c.hour);
  }

  /** A later night: its fold meets the hourly row, is ignored, and the sample is
      deleted. */
  lemma {:induction false} SecondNightLoses<V, A(!new), R>(k: Kind<V, A, R>, s: Sample<V>, h: int, c: Cuts, r: R)
    requires Lawful(k) && h <= s.ts < h + ONE_HOUR <= c.five && s.ts < c.raw && c.hour <= h
    requires Floor(s.ts, FIVE_MINUTES) == s.ts && Floor(s.ts, ONE_HOUR) == h
    ensures Night(k, Store([s], map[], map[(s.key, h) := r]), c) == Store([], map[], map[(s.key, h) := r])
  {
    FoldRawOne(k, [s], c.raw, FIVE_MINUTES, s);
    var row := RawRow(k, [s], (s.key, s.ts as int), FIVE_MINUTES, c.raw);
    FoldLoneRow(k, s.key, s.ts, row, h, map[(s.key, h) := r], c.five);
    KeepRawPair(s, s, c.raw);
    NightIs(k, Store([s], map[], map[(s.key, h) := r]), c, map[(s.key, s.ts as int) := row], map[(s.key, h) := r]);
    KeepOne((s.key, s.ts as int), row, c.five);
    KeepOne((s.key, h), r, c.hour);
  }

  /** Settings under which a night splits an hour and the hour's row outlives the
      raw rows: raw rows are kept longer than five-minute rows but not as long as
      hourly ones, and the night starts five minutes or more past an hour. */
  predicate Splits(n: Settings) {
    && n.fiveDays < n.rawDays < n.hourlyDays
    && n.started % ONE_HOUR >= FIVE_MINUTES && n.started >= n.rawDays * ONE_DAY + ONE_HOUR
  }

  /** The same settings a day later. */
  function NextNight(n: Settings): Settings {
    n.(started := n.started + ONE_DAY)
  }

  /** Two samples of a series, one in the last bucket a night folds and one in the
      first it does not. */
  predicate Straddle<V>(log: seq<Sample<V>>, raw: int) {
    |log| == 2 && log[0].key == log[1].key && log[0].ts == raw - FIVE_MINUTES && log[1].ts == raw
  }

  /** A day later the clock shows the same. */
  lemma DayLater(started: int)
    ensures Floor(started + ONE_DAY, ONE_HOUR) == Floor(started, ONE_HOUR) + ONE_DAY
    ensures Into(started + ONE_DAY) == Into(started)
  {
    var h := Floor(started, ONE_HOUR);
    FloorHour(started, 0);
    HourDaysBefore(h, -1);
    HourFloorUnique(started + ONE_DAY, h + ONE_DAY);
  }

  /** The bucket before a cutoff that is inside an hour is in the same hour. */
  lemma BucketBefore(h: int, raw: int)
    requires h % ONE_HOUR == 0 && raw % FIVE_MINUTES == 0 && h < raw < h + ONE_HOUR
    ensures h + FIVE_MINUTES <= raw && Floor(raw, ONE_HOUR) == h && Floor(raw, FIVE_MINUTES) == raw
    ensures Floor(raw - FIVE_MINUTES, FIVE_MINUTES) == raw - FIVE_MINUTES && Floor(raw - FIVE_MINUTES, ONE_HOUR) == h
  {
    HourIsFives(h);
    FivesApart(h, raw);
    FivesAdd(raw, -FIVE_MINUTES);
    FiveFloorUnique(raw, raw);
    FiveFloorUnique(raw - FIVE_MINUTES, raw - FIVE_MINUTES);
    HourFloorUnique(raw, h);
    HourFloorUnique(raw - FIVE_MINUTES, h);
  }

  /** A night whose raw cutoff is inside the hour, and a later one past it. */
  ghost predicate CutInTwo(h: int, c: Cuts, d: Cuts) {
    && h + FIVE_MINUTES <= c.raw < h + ONE_HOUR <= c.five && c.hour <= h
    && h + ONE_HOUR <= d.raw && h + ONE_HOUR <= d.five && d.hour <= h
    && Floor(c.raw, FIVE_MINUTES) == c.raw && Floor(c.raw, ONE_HOUR) == h
    && Floor(c.raw - FIVE_MINUTES, FIVE_MINUTES) == c.raw - FIVE_MINUTES && Floor(c.raw - FIVE_MINUTES, ONE_HOUR) == h
  }

  /** The hour both nights' cutoffs are reckoned from, a day apart. */
  lemma {:induction false} TwoNightsCuts(n: Settings)
    ensures var c, d, h := CutsOf(n), CutsOf(NextNight(n)), Floor(n.started, ONE_HOUR) - n.rawDays * ONE_DAY;
            && h % ONE_HOUR == 0 && c.raw == h + Into(n.started) && c.raw % FIVE_MINUTES == 0
            && d.raw == c.raw + ONE_DAY && d.five == c.five + ONE_DAY && d.hour == c.hour + ONE_DAY
            && c.five == h + (n.rawDays - n.fiveDays) * ONE_DAY && c.hour == h - (n.hourlyDays - n.rawDays) * ONE_DAY
    ensures n.started < Floor(n.started, ONE_HOUR) + ONE_HOUR
    ensures Into(n.started) + FIVE_MINUTES <= ONE_HOUR
    ensures Into(n.started) > 0 <==> n.started % ONE_HOUR >= FIVE_MINUTES
  {
    CutsInHours(n.started, n.rawDays, n.fiveDays, n.hourlyDays);
    CutsInHours(n.started + ONE_DAY, n.rawDays, n.fiveDays, n.hourlyDays);
    DayLater(n.started);
    FloorFive(n.started - n.rawDays * ONE_DAY, 0);
    FloorHour(n.started, 0);
  }

  /** Where two successive nights cut the hour that the first one splits. */
  lemma {:induction false} SplitHour(n: Settings)
    requires Splits(n)
    ensures ONE_HOUR <= Floor(CutsOf(n).raw, ONE_HOUR) && Floor(CutsOf(n).raw, ONE_HOUR) % ONE_HOUR == 0
    ensures CutInTwo(Floor(CutsOf(n).raw, ONE_HOUR), CutsOf(n), CutsOf(NextNight(n)))
  {
    var h := Floor(n.started, ONE_HOUR) - n.rawDays * ONE_DAY;
    TwoNightsCuts(n);
    BucketBefore(h, CutsOf(n).raw);
    HoursApart(0, h);
  }

  lemma {:induction false} TwoNightsLose<V, A(!new), R>(k: Kind<V, A, R>, log: seq<Sample<V>>, h: int, c: Cuts, d: Cuts)
    requires Lawful(k) && CutInTwo(h, c, d) && Straddle(log, c.raw)
    ensures Night(k, Night(k, Store(log, map[], map[]), c), d)
            == Store([], map[], map[(log[0].key, h) := FirstAlone(k, log)])
  {
    var mid, end := LeftAfterOne(k, log, h), Store([], map[], map[(log[0].key, h) := FirstAlone(k, log)]);
    FirstNightSplits(k, log, h, c);
    SecondNightLoses(k, log[1], h, d, FirstAlone(k, log));
    NightAfter(k, Store(log, map[], map[]), mid, end, c, d);
  }

  lemma NightAfter<V, A, R>(k: Kind<V, A, R>, s: Store<V, R>, mid: Store<V, R>, end: Store<V, R>, c: Cuts, d: Cuts)
    requires Night(k, s, c) == mid && Night(k, mid, d) == end
    ensures Night(k, Night(k, s, c), d) == end
  {
  }

  /** Under all such settings two successive nights lose a sample without a word:
      all that is left of the hour is the row the first sample made, whatever the
      second was. */
  lemma {:induction false} SplitHourLosesASample<V, A(!new), R>(k: Kind<V, A, R>, n: Settings, log: seq<Sample<V>>)
    requires Lawful(k) && Splits(n) && Straddle(log, CutsOf(n).raw)
    ensures Night(k, Night(k, TablesOf(k, log, START), CutsOf(n)), CutsOf(NextNight(n)))
            == Store([], map[], map[(log[0].key, Floor(CutsOf(n).raw, ONE_HOUR)) := FirstAlone(k, log)])
  {
    SplitHour(n);
    NothingBelowZero(k, log);
    TwoNightsLose(k, log, Floor(CutsOf(n).raw, ONE_HOUR), CutsOf(n), CutsOf(NextNight(n)));
  }

  // ------------------------------------------------- ... and what one night would leave

  lemma SameRawFold<V, A, R>(k: Kind<V, A, R>, log: seq<Sample<V>>, end: int, cutoff: int)
    requires end % FIVE_MINUTES == 0 && end <= cutoff && forall s :: s in log ==> s.ts < end
    ensures FoldRaw(k, log, map[], cutoff, FIVE_MINUTES) == FoldRaw(k, log, map[], end, FIVE_MINUTES)
  {
    forall g | g in RawGroups(log, cutoff, FIVE_MINUTES)
      ensures RawRow(k, log, g, FIVE_MINUTES, cutoff) == RawRow(k, log, g, FIVE_MINUTES, end)
    {
      var s :| s in log && s.ts < cutoff && g == (s.key, Floor(s.ts, FIVE_MINUTES));
      FloorFive(s.ts, end);
    }
    assert RawGroups(log, cutoff, FIVE_MINUTES) == RawGroups(log, end, FIVE_MINUTES);
  }

  lemma SameRowsFold<V, A, R>(k: Kind<V, A, R>, t: Rollup<R>, end: int, cutoff: int)
    requires end % ONE_HOUR == 0 && end <= cutoff && forall g :: g in t ==> g.1 < end
    ensures FoldRows(k, t, map[], cutoff, ONE_HOUR) == FoldRows(k, t, map[], end, ONE_HOUR)
  {
    forall g | g in RowGroups(t, cutoff, ONE_HOUR)
      ensures WideRow(k, t, g, ONE_HOUR, cutoff) == WideRow(k, t, g, ONE_HOUR, end)
    {
      var b :| b in t && b.1 < cutoff && g == (b.0, Floor(b.1, ONE_HOUR));
      FloorHour(b.1, end);
    }
    assert RowGroups(t, cutoff, ONE_HOUR) == RowGroups(t, end, ONE_HOUR);
  }

  lemma {:induction false} NothingRaw<V>(log: seq<Sample<V>>, cutoff: int)
    requires forall s :: s in log ==> s.ts < cutoff
    ensures KeepRaw(log, cutoff) == []
    decreases |log|
  {
    if log != [] {
      NothingRaw(log[..|log| - 1], cutoff);
    }
  }

  lemma {:induction false} OneFiveFold<V, A, R>(k: Kind<V, A, R>, log: seq<Sample<V>>, end: int, cutoff: int)
    requires end % FIVE_MINUTES == 0 && 0 <= end <= cutoff && forall s :: s in log ==> s.ts < end
    ensures FoldRaw(k, log, map[], cutoff, FIVE_MINUTES) == Between(FiveRows(k, log), 0, end)
  {
    SameRawFold(k, log, end, cutoff);
    KeepRawAll(log);
    FoldRawKeepsSync(k, log, START, end);
    assert Between(FiveRows(k, log), 0, 0) == map[];
  }

  lemma OntoNothing<V, A, R>(k: Kind<V, A, R>, t: Rollup<R>, rows: Rollup<R>, none: Rollup<R>, end: int)
    requires none == map[] && FoldRows(k, t, none, end, ONE_HOUR) == rows + none
    ensures FoldRows(k, t, map[], end, ONE_HOUR) == rows
  {
  }

  lemma {:induction false} OneHourFold<V, A, R>(k: Kind<V, A, R>, log: seq<Sample<V>>, end: int, cutoff: int)
    requires end % ONE_HOUR == 0 && 0 <= end <= cutoff
    ensures FoldRows(k, Between(FiveRows(k, log), 0, end), map[], cutoff, ONE_HOUR) == Between(HourRows(k, log), 0, end)
  {
    var five, t := Between(FiveRows(k, log), 0, end), HourRows(k, log);
    FoldRowsKeepsSync(k, log, START, end, end);
    OntoNothing(k, five, Between(t, 0, end), Between(t, 0, 0), end);
    SameRowsFold(k, five, end, cutoff);
  }

  lemma NothingKept<R>(t: Rollup<R>, lo: int, end: int, cutoff: int)
    requires end <= cutoff
    ensures KeepRows(Between(t, lo, end), cutoff) == map[]
  {
  }

  /** One night that takes whole hours takes all of them. */
  lemma {:induction false} OneNightFolds<V, A, R>(k: Kind<V, A, R>, log: seq<Sample<V>>, end: int, d: Cuts)
    requires end % ONE_HOUR == 0 && 0 <= end <= d.raw && end <= d.five && forall s :: s in log ==> s.ts < end
    ensures Night(k, Store(log, map[], map[]), d)
            == Store([], map[], KeepRows(Between(HourRows(k, log), 0, end), d.hour))
  {
    HourIsFives(end);
    OneFiveFold(k, log, end, d.raw);
    OneHourFold(k, log, end, d.five);
    NothingRaw(log, d.raw);
    NothingKept(FiveRows(k, log), 0, end, d.five);
    NightIs(k, Store(log, map[], map[]), d, Between(FiveRows(k, log), 0, end), Between(HourRows(k, log), 0, end));
  }
}
