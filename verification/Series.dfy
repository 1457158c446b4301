/** The rollup rows of checks and of custom metrics, and what they say about
    the samples they were made of (retention.py). */
module Series {
  import opened Prelude
  import opened Retention
  import opened Buckets
  import opened Ladder
  import opened Nights

  datatype Status = Up | Degraded | Down | Unknown

  /** A raw row's columns: a check's status and latency, or -- with a value
      every time -- one custom metric. */
  datatype Reading = Reading(status: Status, value: Option<real>)

  datatype Row = Row(samples: nat, up: nat, degraded: nat, down: nat,
                     low: Option<real>, avg: Option<real>, high: Option<real>)

  /** What COUNT, SUM, MIN and MAX have seen so far. */
  datatype Agg = Agg(samples: nat, up: nat, degraded: nat, down: nat,
                     valued: nat, sum: real, low: Option<real>, high: Option<real>)

  const NOTHING := Agg(0, 0, 0, 0, 0, 0.0, None, None)

  function Lower(a: Option<real>, b: Option<real>): Option<real> {
    if a.None? then b else if b.None? then a else Some(MinReal(a.value, b.value))
  }

  function Higher(a: Option<real>, b: Option<real>): Option<real> {
    if a.None? then b else if b.None? then a else Some(MaxReal(a.value, b.value))
  }

  function Plus(a: Agg, b: Agg): Agg {
    Agg(a.samples + b.samples, a.up + b.up, a.degraded + b.degraded, a.down + b.down,
        a.valued + b.valued, a.sum + b.sum, Lower(a.low, b.low), Higher(a.high, b.high))
  }

  function One(v: Reading): Agg {
    Agg(1, if v.status == Up then 1 else 0, if v.status == Degraded then 1 else 0,
        if v.status == Down then 1 else 0,
        if v.value.Some? then 1 else 0, v.value.GetOr(0.0), v.value, v.value)
  }

  /** AVG, over the values that are there. */
  function Mean(a: Agg): Option<real> {
    if a.valued > 0 then Some(a.sum / a.valued as real) else None
  }

  function RowOf(a: Agg): Row {
    Row(a.samples, a.up, a.degraded, a.down, a.low, Mean(a), a.high)
  }

  /** What one row adds to a wider one: an average weighted by samples, and a
      bucket without values adding nothing to the average. */
  function OfRow(r: Row): Agg {
    Agg(r.samples, r.up, r.degraded, r.down,
        if r.avg.Some? then r.samples else 0,
        if r.avg.Some? then r.avg.value * r.samples as real else 0.0, r.low, r.high)
  }

  const ROLLUP: Kind<Reading, Agg, Row> := Kind(NOTHING, One, Plus, RowOf, OfRow)

  lemma PlusIs(a: Agg, b: Agg)
    ensures ROLLUP.Plus(a, b) == Plus(a, b) && ROLLUP.zero == NOTHING
  {
  }

  lemma OneIs(v: Reading)
    ensures ROLLUP.One(v) == One(v)
  {
  }

  lemma RowIs(a: Agg)
    ensures ROLLUP.RowOf(a) == RowOf(a)
  {
  }

  lemma OfRowIs(r: Row)
    ensures ROLLUP.OfRow(r) == OfRow(r)
  {
  }

  lemma PlusLaws(a: Agg, b: Agg, c: Agg)
    ensures Plus(a, b) == Plus(b, a)
    ensures Plus(Plus(a, b), c) == Plus(a, Plus(b, c))
    ensures Plus(a, NOTHING) == a
  {
  }

  lemma RollupIsLawful()
    ensures Lawful(ROLLUP)
  {
    forall a, b ensures ROLLUP.Plus(a, b) == ROLLUP.Plus(b, a) {
      PlusLaws(a, b, a);
    }
    forall a, b, c ensures ROLLUP.Plus(ROLLUP.Plus(a, b), c) == ROLLUP.Plus(a, ROLLUP.Plus(b, c)) {
      PlusLaws(a, b, c);
    }
    forall a ensures ROLLUP.Plus(a, ROLLUP.zero) == a {
      PlusLaws(a, a, a);
    }
  }

  // ------------------------------------------------------------------ aggregates

  type Log = seq<Sample<Reading>>

  /** Every sample of the series carries a value, as custom metrics' do. */
  ghost predicate AllValued(log: Log, key: Key) {
    forall s :: s in log && s.key == key ==> s.value.value.Some?
  }

  /** What every aggregate is like. */
  ghost predicate Sane(a: Agg) {
    && a.valued <= a.samples
    && (a.samples == 0 ==> a == NOTHING)
    && (a.valued == 0 ==> a.sum == 0.0)
  }

  lemma SaneStep(a: Agg, v: Reading)
    requires Sane(a)
    ensures Sane(Plus(a, One(v))) && Plus(a, One(v)).samples > 0
    ensures a.valued == a.samples && v.value.Some? ==> Plus(a, One(v)).valued == Plus(a, One(v)).samples
  {
  }

  lemma {:induction false} AggIsSane(log: Log, key: Key, lo: int, hi: int)
    ensures Sane(AggOf(ROLLUP, log, key, lo, hi))
    ensures AggOf(ROLLUP, log, key, lo, hi).samples > 0 <==> HasSample(log, key, lo, hi)
    ensures AllValued(log, key) ==> AggOf(ROLLUP, log, key, lo, hi).valued == AggOf(ROLLUP, log, key, lo, hi).samples
    decreases |log|
  {
    if log != [] {
      var n := |log| - 1;
      var before := AggOf(ROLLUP, log[..n], key, lo, hi);
      AggIsSane(log[..n], key, lo, hi);
      PlusIs(before, One(log[n].value));
      OneIs(log[n].value);
      SaneStep(before, log[n].value);
      HasSampleStep(log, key, lo, hi);
    }
  }

  lemma HasSampleStep(log: Log, key: Key, lo: int, hi: int)
    requires log != []
    ensures HasSample(log, key, lo, hi)
            <==> HasSample(log[..|log| - 1], key, lo, hi) || Within(log[|log| - 1], key, lo, hi)
    ensures AllValued(log, key) ==>
              AllValued(log[..|log| - 1], key) && (log[|log| - 1].key == key ==> log[|log| - 1].value.value.Some?)
  {
    var n := |log| - 1;
    assert forall s :: s in log <==> s in log[..n] || s == log[n] by {
      assert log == log[..n] + [log[n]];
    }
  }

  /** All but the average, which needs values everywhere to be exact: how many
      samples, how many up, degraded and down, the lowest and the highest. */
  datatype Facts = Facts(samples: nat, up: nat, degraded: nat, down: nat, low: Option<real>, high: Option<real>)

  function FactsOf(a: Agg): Facts {
    Facts(a.samples, a.up, a.degraded, a.down, a.low, a.high)
  }

  function RowFacts(r: Row): Facts {
    Facts(r.samples, r.up, r.degraded, r.down, r.low, r.high)
  }

  ghost predicate SameButAverage(a: Agg, b: Agg) {
    FactsOf(a) == FactsOf(b)
  }

  /** Reading a row back gives the aggregate it was made of. */
  lemma RowRoundTrip(a: Agg)
    requires Sane(a)
    ensures SameButAverage(OfRow(RowOf(a)), a)
    ensures a.valued == a.samples ==> OfRow(RowOf(a)) == a
  {
    if a.valued > 0 {
      assert a.sum / a.valued as real * a.valued as real == a.sum;
    }
  }

  /** The rows of one interval agree with the samples of that interval. */
  ghost predicate Agrees(t: Rollup<Row>, log: Log, key: Key, lo: int, hi: int) {
    var rows, all := SumRows(ROLLUP, t, key, lo, hi), AggOf(ROLLUP, log, key, lo, hi);
    SameButAverage(rows, all) && (AllValued(log, key) ==> rows == all)
  }

  /** One row, alone in its interval and made of the aggregate of its samples. */
  lemma {:induction false} LoneRowAgrees(t: Rollup<Row>, log: Log, key: Key, lo: int, hi: int, a: Agg)
    requires lo < hi && Sane(a)
    requires forall x :: lo <= x < hi && (key, x) in t ==> x == lo
    requires (key, lo) in t <==> HasSample(log, key, lo, hi)
    requires (key, lo) in t ==> t[(key, lo)] == RowOf(a)
    requires SameButAverage(a, AggOf(ROLLUP, log, key, lo, hi))
    requires AllValued(log, key) ==> a == AggOf(ROLLUP, log, key, lo, hi)
    ensures Agrees(t, log, key, lo, hi)
  {
    RollupIsLawful();
    AggIsSane(log, key, lo, hi);
    if (key, lo) in t {
      SumOneRow(ROLLUP, t, key, lo, lo, hi);
      OfRowIs(RowOf(a));
      RowRoundTrip(a);
    } else {
      SumRowsSame(ROLLUP, t, map[], key, lo, hi);
      NoRows(ROLLUP, key, lo, hi);
    }
  }

  lemma FactsAdd(a: Agg, b: Agg, c: Agg, d: Agg)
    requires SameButAverage(a, b) && SameButAverage(c, d)
    ensures SameButAverage(ROLLUP.Plus(a, c), ROLLUP.Plus(b, d))
  {
    PlusIs(a, c);
    PlusIs(b, d);
  }

  lemma {:induction false} AgreesJoin(t: Rollup<Row>, log: Log, key: Key, lo: int, mid: int, hi: int)
    requires lo <= mid <= hi && Agrees(t, log, key, lo, mid) && Agrees(t, log, key, mid, hi)
    ensures Agrees(t, log, key, lo, hi)
  {
    RollupIsLawful();
    SumRowsSplit(ROLLUP, t, key, lo, mid, hi);
    AggSplit(ROLLUP, log, key, lo, mid, hi);
    FactsAdd(SumRows(ROLLUP, t, key, lo, mid), AggOf(ROLLUP, log, key, lo, mid),
             SumRows(ROLLUP, t, key, mid, hi), AggOf(ROLLUP, log, key, mid, hi));
  }

  lemma {:induction false} EmptyAgrees(t: Rollup<Row>, log: Log, key: Key, lo: int)
    ensures Agrees(t, log, key, lo, lo)
  {
    AggEmpty(ROLLUP, log, key, lo, lo);
  }

  // ------------------------------------------------------------- what a row says

  lemma {:induction false} OneBucket(log: Log, key: Key, b: int)
    requires b % FIVE_MINUTES == 0
    ensures Agrees(FiveRows(ROLLUP, log), log, key, b, b + FIVE_MINUTES)
  {
    var t := FiveRows(ROLLUP, log);
    var a := AggOf(ROLLUP, log, key, b, b + FIVE_MINUTES);
    AggIsSane(log, key, b, b + FIVE_MINUTES);
    FiveKeyIs(log, key, b);
    forall x | b <= x < b + FIVE_MINUTES && (key, x) in t ensures x == b {
      FiveKeyIs(log, key, x);
      if x != b { FivesApart(b, x); }
    }
    RowIs(a);
    LoneRowAgrees(t, log, key, b, b + FIVE_MINUTES, a);
  }

  /** Over whole buckets, the five-minute rows say what the samples say. */
  lemma {:induction false} FiveRowsExact(log: Log, key: Key, lo: int, hi: int)
    requires lo % FIVE_MINUTES == 0 && hi % FIVE_MINUTES == 0 && lo <= hi
    ensures Agrees(FiveRows(ROLLUP, log), log, key, lo, hi)
    decreases hi - lo
  {
    if lo == hi {
      EmptyAgrees(FiveRows(ROLLUP, log), log, key, lo);
    } else {
      FivesApart(lo, hi);
      var mid := hi - FIVE_MINUTES;
      FiveRowsExact(log, key, lo, mid);
      OneBucket(log, key, mid);
      AgreesJoin(FiveRows(ROLLUP, log), log, key, lo, mid, hi);
    }
  }

  /** Every hourly row aggregates exactly the samples ever recorded in its hour:
      how many, how many up, degraded and down, the lowest and the highest --
      and the average too, where every sample has a value. */
  lemma {:induction false} HourRowExact(log: Log, key: Key, h: int)
    requires h % ONE_HOUR == 0
    ensures var row, all := HourRow(ROLLUP, log, (key, h)), AggOf(ROLLUP, log, key, h, h + ONE_HOUR);
            && RowFacts(row) == FactsOf(all)
            && (AllValued(log, key) ==> row.avg == Mean(all))
  {
    HourIsFives(h);
    FiveRowsExact(log, key, h, h + ONE_HOUR);
    var rows := SumRows(ROLLUP, FiveRows(ROLLUP, log), key, h, h + ONE_HOUR);
    RowIs(rows);
  }

  lemma {:induction false} RowsAreSane(t: Rollup<Row>, key: Key, lo: int, hi: int)
    ensures var a := SumRows(ROLLUP, t, key, lo, hi); a.valued <= a.samples && (a.valued == 0 ==> a.sum == 0.0)
    decreases hi - lo
  {
    if lo < hi {
      RowsAreSane(t, key, lo, hi - 1);
      if (key, hi - 1) in t {
        var r := t[(key, hi - 1)];
        PlusIs(SumRows(ROLLUP, t, key, lo, hi - 1), OfRow(r));
        OfRowIs(r);
      }
    }
  }

  lemma {:induction false} OneHour(log: Log, key: Key, h: int)
    requires h % ONE_HOUR == 0
    ensures Agrees(HourRows(ROLLUP, log), log, key, h, h + ONE_HOUR)
  {
    var t := HourRows(ROLLUP, log);
    var a := SumRows(ROLLUP, FiveRows(ROLLUP, log), key, h, h + ONE_HOUR);
    HourIsFives(h);
    FiveRowsExact(log, key, h, h + ONE_HOUR);
    AggIsSane(log, key, h, h + ONE_HOUR);
    RowsAreSane(FiveRows(ROLLUP, log), key, h, h + ONE_HOUR);
    HourKeyIs(log, key, h);
    forall x | h <= x < h + ONE_HOUR && (key, x) in t ensures x == h {
      HourKeyIs(log, key, x);
      if x != h { HoursApart(h, x); }
    }
    RowIs(a);
    LoneRowAgrees(t, log, key, h, h + ONE_HOUR, a);
  }

  lemma {:induction false} HourRowsExact(log: Log, key: Key, lo: int, hi: int)
    requires lo % ONE_HOUR == 0 && hi % ONE_HOUR == 0 && lo <= hi
    ensures Agrees(HourRows(ROLLUP, log), log, key, lo, hi)
    decreases hi - lo
  {
    if lo == hi {
      EmptyAgrees(HourRows(ROLLUP, log), log, key, lo);
    } else {
      HoursApart(lo, hi);
      var mid := hi - ONE_HOUR;
      HourRowsExact(log, key, lo, mid);
      OneHour(log, key, mid);
      AgreesJoin(HourRows(ROLLUP, log), log, key, lo, mid, hi);
    }
  }

  ghost predicate Counts(t: Rollup<Row>, g: (Key, int), n: nat) {
    g in t && t[g].samples == n
  }

  /** All that is left is in hourly rows, and this one counts so many. */
  ghost predicate HoursCount(s: Store<Reading, Row>, g: (Key, int), n: nat) {
    s.raw == [] && s.five == map[] && Counts(s.hour, g, n)
  }

  /** The hourly row of an hour with two samples counts both. */
  lemma {:induction false} RowCountsBoth(log: Log, h: int)
    requires h % ONE_HOUR == 0 && |log| == 2
    requires Within(log[0], log[0].key, h, h + ONE_HOUR) && Within(log[1], log[0].key, h, h + ONE_HOUR)
    ensures Counts(HourRows(ROLLUP, log), (log[0].key, h), 2)
  {
    assert log[0] in log;
    HourKeyIs(log, log[0].key, h);
    HourRowExact(log, log[0].key, h);
    PairCounts(log, log[0].key, h, h + ONE_HOUR);
  }

  lemma LoneRowCountsOne(v: Reading)
    ensures ROLLUP.RowOf(ROLLUP.OfRow(LoneRow(ROLLUP, v))).samples == 1
  {
    OneIs(v);
    RowIs(One(v));
    var row := LoneRow(ROLLUP, v);
    OfRowIs(row);
    RowIs(OfRow(row));
  }

  /** What the later night leaves, with or without the one that splits the hour
      before it. */
  ghost function Left(log: Log, n: Settings, before: bool): Store<Reading, Row> {
    var start := TablesOf(ROLLUP, log, START);
    Night(ROLLUP, if before then Night(ROLLUP, start, CutsOf(n)) else start, CutsOf(NextNight(n)))
  }

  /** The lost sample in numbers: had the first night been skipped the hour's row
      would count both samples; after both nights it counts one, and the other is
      nowhere. */
  lemma {:induction false} SplitHourCountsOne(n: Settings, log: Log)
    requires Splits(n) && Straddle(log, CutsOf(n).raw)
    ensures HoursCount(Left(log, n, false), (log[0].key, Floor(CutsOf(n).raw, ONE_HOUR)), 2)
    ensures HoursCount(Left(log, n, true), (log[0].key, Floor(CutsOf(n).raw, ONE_HOUR)), 1)
  {
    var h := Floor(CutsOf(n).raw, ONE_HOUR);
    SplitHour(n);
    NothingBelowZero(ROLLUP, log);
    LeftWithBoth(log, h, CutsOf(NextNight(n)));
    TwoNightsLeaveOne(n, log);
    LeftWithOne(Left(log, n, true), (log[0].key, h), log[0].value);
  }

  lemma {:induction false} TwoNightsLeaveOne(n: Settings, log: Log)
    requires Splits(n) && Straddle(log, CutsOf(n).raw)
    ensures Left(log, n, true)
            == Store([], map[], map[(log[0].key, Floor(CutsOf(n).raw, ONE_HOUR)) := FirstAlone(ROLLUP, log)])
  {
    RollupIsLawful();
    SplitHourLosesASample(ROLLUP, n, log);
  }

  lemma {:induction false} LeftWithBoth(log: Log, h: int, d: Cuts)
    requires h % ONE_HOUR == 0 && 0 <= h && |log| == 2
    requires Within(log[0], log[0].key, h, h + ONE_HOUR) && Within(log[1], log[0].key, h, h + ONE_HOUR)
    requires h + ONE_HOUR <= d.raw && h + ONE_HOUR <= d.five && d.hour <= h
    ensures HoursCount(Night(ROLLUP, Store(log, map[], map[]), d), (log[0].key, h), 2)
  {
    HourIsFives(h);
    assert log == [log[0], log[1]];
    OneNightFolds(ROLLUP, log, h + ONE_HOUR, d);
    RowCountsBoth(log, h);
    StillCounts(HourRows(ROLLUP, log), (log[0].key, h), 2, h + ONE_HOUR, d.hour);
    SameCount(Store([], map[], KeepRows(Between(HourRows(ROLLUP, log), 0, h + ONE_HOUR), d.hour)),
              Night(ROLLUP, Store(log, map[], map[]), d), (log[0].key, h), 2);
  }

  lemma StillCounts(t: Rollup<Row>, g: (Key, int), n: nat, end: int, cutoff: int)
    requires Counts(t, g, n) && 0 <= g.1 < end && cutoff <= g.1
    ensures Counts(KeepRows(Between(t, 0, end), cutoff), g, n)
  {
  }

  lemma SameCount(s: Store<Reading, Row>, t: Store<Reading, Row>, g: (Key, int), n: nat)
    requires s == t && HoursCount(s, g, n)
    ensures HoursCount(t, g, n)
  {
  }

  lemma LeftWithOne(s: Store<Reading, Row>, g: (Key, int), v: Reading)
    requires s == Store([], map[], map[g := ROLLUP.RowOf(ROLLUP.OfRow(LoneRow(ROLLUP, v)))])
    ensures HoursCount(s, g, 1)
  {
    LoneRowCountsOne(v);
  }

  lemma PairCounts(log: Log, key: Key, lo: int, hi: int)
    requires |log| == 2 && Within(log[0], key, lo, hi) && Within(log[1], key, lo, hi)
    ensures AggOf(ROLLUP, log, key, lo, hi).samples == 2
  {
    var a := [log[0]];
    assert log[..1] == a && a[..0] == [];
    PlusIs(NOTHING, One(log[0].value));
    OneIs(log[0].value);
    assert AggOf(ROLLUP, a, key, lo, hi) == Plus(NOTHING, One(log[0].value));
    PlusIs(AggOf(ROLLUP, a, key, lo, hi), One(log[1].value));
    OneIs(log[1].value);
  }
}
