/** Reading one series back from three tables as chart points (snmp_history.py). */
module Chart {
  import opened Prelude
  import opened Retention
  import opened Buckets
  import opened Ladder
  import opened Nights
  import opened Series

  /** Equal stretches of time, one for each point of a chart. */
  datatype Window = Window(start: int, width: int, count: nat) {
    function From(i: int): int { start + i * width }
    function To(i: int): int { start + i * width + width }
  }

  /** The window for a range: its last bucket holds the present instant. */
  function Ending(now: nat, span: nat, width: nat): Window
    requires width > 0
  {
    var end := now / width * width + width;
    Window(end - span, width, span / width)
  }

  // --------------------------------------------------------------- weighted sums

  /** One bucket's running sums. */
  datatype Cell = Cell(total: real, weight: real, peak: Option<real>)

  function Added(c: Cell, avg: Option<real>, weight: nat, peak: Option<real>): Cell {
    Cell(if avg.Some? && weight > 0 then c.total + avg.value * weight as real else c.total,
         if avg.Some? && weight > 0 then c.weight + weight as real else c.weight,
         Higher(c.peak, peak))
  }

  /** A chart's running sums while the tables are read one after another. */
  class Acc {
    const total: array<real>
    const weight: array<real>
    const peak: array<Option<real>>

    ghost predicate Valid() {
      total.Length == weight.Length == peak.Length && total != weight
    }

    ghost function At(i: int): Cell
      requires Valid() && 0 <= i < total.Length
      reads total, weight, peak
    {
      Cell(total[i], weight[i], peak[i])
    }

    constructor (count: nat)
      ensures Valid() && total.Length == count
      ensures fresh(total) && fresh(weight) && fresh(peak)
      ensures forall i :: 0 <= i < count ==> At(i) == Cell(0.0, 0.0, None)
    {
      total := new real[count](_ => 0.0);
      weight := new real[count](_ => 0.0);
      peak := new Option<real>[count](_ => None);
    }

    method Add(index: int, avg: Option<real>, w: nat, high: Option<real>)
      requires Valid()
      modifies total, weight, peak
      ensures forall i :: 0 <= i < total.Length ==>
                At(i) == if i == index then Added(old(At(i)), avg, w, high) else old(At(i))
    {
      if !(0 <= index < total.Length) {
        return;
      }
      if avg.Some? && w > 0 {
        total[index] := total[index] + avg.value * w as real;
        weight[index] := weight[index] + w as real;
      }
      if high.Some? {
        peak[index] := if peak[index].None? then high else Some(MaxReal(peak[index].value, high.value));
      }
    }

    method Averages() returns (avg: seq<Option<real>>, high: seq<Option<real>>)
      requires Valid()
      ensures |avg| == |high| == total.Length
      ensures forall i :: 0 <= i < total.Length ==>
                avg[i] == (if At(i).weight != 0.0 then Some(At(i).total / At(i).weight) else None)
                && high[i] == At(i).peak
    {
      avg := [];
      for i := 0 to total.Length
        invariant |avg| == i
        invariant forall j :: 0 <= j < i ==>
                    avg[j] == if At(j).weight != 0.0 then Some(At(j).total / At(j).weight) else None
      {
        avg := avg + [if weight[i] != 0.0 then Some(total[i] / weight[i]) else None];
      }
      high := peak[..];
    }
  }

  // ------------------------------------------------------------------ what is read

  /** Which chart bucket an instant is in. */
  function Index(w: Window, t: int): int
    requires w.width > 0
  {
    (t - w.start) / w.width
  }

  lemma {:induction false} IndexIs(w: Window, t: int, i: int)
    requires w.width > 0
    ensures Index(w, t) == i <==> w.From(i) <= t < w.To(i)
  {
    var q, r := (t - w.start) / w.width, (t - w.start) % w.width;
    assert t - w.start == q * w.width + r;
    if q < i {
      assert (q + 1) * w.width <= i * w.width;
    } else if q > i {
      assert (i + 1) * w.width <= q * w.width;
    }
  }

  /** Everything the three tables hold of one chart bucket. */
  ghost function Held(s: Store<Reading, Row>, key: Key, lo: int, hi: int): Agg {
    Plus(AggOf(ROLLUP, s.raw, key, lo, hi), HeldRows(s, key, lo, hi))
  }

  /** One chart bucket's raw samples, and its rollup rows. */
  function RawAt(s: Store<Reading, Row>, key: Key, w: Window, i: int): Agg {
    AggOf(ROLLUP, s.raw, key, w.From(i), w.To(i))
  }

  function RowsAt(s: Store<Reading, Row>, key: Key, w: Window, i: int): Agg {
    HeldRows(s, key, w.From(i), w.To(i))
  }

  function HeldRows(s: Store<Reading, Row>, key: Key, lo: int, hi: int): Agg {
    Plus(SumRows(ROLLUP, s.five, key, lo, hi), SumRows(ROLLUP, s.hour, key, lo, hi))
  }

  ghost function CellOf(a: Agg): Cell {
    Cell(a.sum, a.valued as real, a.high)
  }

  lemma AddedIs(a: Agg, b: Agg)
    requires b.valued == 0 ==> b.sum == 0.0
    ensures Added(CellOf(a), Mean(b), b.valued, b.high) == CellOf(Plus(a, b))
  {
    if b.valued > 0 {
      assert b.sum / b.valued as real * b.valued as real == b.sum;
    }
  }

  /** The chart buckets that have raw samples. */
  function RawIndexes(s: Store<Reading, Row>, key: Key, w: Window): set<int>
    requires w.width > 0
  {
    set x | x in s.raw && x.key == key && x.ts >= w.start :: Index(w, x.ts)
  }

  /** The chart buckets that have rollup rows of either width. */
  function RowIndexes(s: Store<Reading, Row>, key: Key, w: Window): set<int>
    requires w.width > 0
  {
    (set g | g in s.five && g.0 == key && g.1 >= w.start :: Index(w, g.1))
    + (set g | g in s.hour && g.0 == key && g.1 >= w.start :: Index(w, g.1))
  }

  lemma {:induction false} NoRawThere(s: Store<Reading, Row>, key: Key, w: Window, i: nat)
    requires w.width > 0 && i !in RawIndexes(s, key, w)
    ensures RawAt(s, key, w, i) == NOTHING
  {
    assert w.From(i) >= w.start by { assert i * w.width >= 0; }
    forall x | x in s.raw ensures !Within(x, key, w.From(i), w.To(i)) {
      IndexIs(w, x.ts, i);
    }
    AggEmpty(ROLLUP, s.raw, key, w.From(i), w.To(i));
  }

  lemma {:induction false} NoRowsThere(s: Store<Reading, Row>, key: Key, w: Window, i: nat)
    requires w.width > 0 && i !in RowIndexes(s, key, w)
    ensures RowsAt(s, key, w, i) == NOTHING
  {
    NoRowsIn(s.five, key, w, i);
    NoRowsIn(s.hour, key, w, i);
    PlusLaws(NOTHING, NOTHING, NOTHING);
  }

  lemma {:induction false} NoRowsIn(t: Rollup<Row>, key: Key, w: Window, i: nat)
    requires w.width > 0 && forall g :: g in t && g.0 == key && g.1 >= w.start ==> Index(w, g.1) != i
    ensures SumRows(ROLLUP, t, key, w.From(i), w.To(i)) == NOTHING
  {
    assert i * w.width >= 0;
    forall b | w.From(i) <= b < w.To(i) ensures (key, b) !in t {
      IndexIs(w, b, i);
    }
    SumRowsSame(ROLLUP, t, map[], key, w.From(i), w.To(i));
    NoRows(ROLLUP, key, w.From(i), w.To(i));
  }

  ghost predicate CellsAre(acc: Acc, lows: seq<Option<real>>, aggs: seq<Agg>)
    requires acc.Valid()
    reads acc.total, acc.weight, acc.peak
  {
    && |lows| == |aggs| == acc.total.Length
    && forall i :: 0 <= i < |lows| ==> acc.At(i) == CellOf(aggs[i]) && lows[i] == aggs[i].low
  }

  function Lowered(lows: seq<Option<real>>, i: int, value: Option<real>): (r: seq<Option<real>>)
    ensures |r| == |lows|
    ensures forall j :: 0 <= j < |lows| ==> r[j] == if j == i then Lower(lows[j], value) else lows[j]
  {
    if value.None? || !(0 <= i < |lows|) then lows
    else lows[i := if lows[i].None? then value else Some(MinReal(lows[i].value, value.value))]
  }

  ghost function MoreAt(aggs: seq<Agg>, i: int, b: Agg): seq<Agg> {
    if 0 <= i < |aggs| then aggs[i := Plus(aggs[i], b)] else aggs
  }

  /** One group read into its bucket, if the chart has that bucket. */
  method AddGroup(acc: Acc, before: seq<Option<real>>, i: int, b: Agg, ghost aggs: seq<Agg>)
    returns (lows: seq<Option<real>>)
    requires acc.Valid() && CellsAre(acc, before, aggs)
    requires b.valued == 0 ==> b.sum == 0.0
    modifies acc.total, acc.weight, acc.peak
    ensures CellsAre(acc, lows, MoreAt(aggs, i, b))
  {
    if 0 <= i < acc.total.Length {
      AddedIs(aggs[i], b);
    }
    acc.Add(i, Mean(b), b.valued, b.high);
    lows := Lowered(before, i, b.low);
  }

  lemma RawAtIsSane(s: Store<Reading, Row>, key: Key, w: Window, i: int)
    ensures RawAt(s, key, w, i).valued == 0 ==> RawAt(s, key, w, i).sum == 0.0
    ensures Plus(NOTHING, RawAt(s, key, w, i)) == RawAt(s, key, w, i)
  {
    var a := RawAt(s, key, w, i);
    AggIsSane(s.raw, key, w.From(i), w.To(i));
    PlusLaws(NOTHING, a, a);
    PlusLaws(a, NOTHING, a);
  }

  lemma RowsAtAreSane(s: Store<Reading, Row>, key: Key, w: Window, i: int)
    ensures RowsAt(s, key, w, i).valued == 0 ==> RowsAt(s, key, w, i).sum == 0.0
  {
    RowsAreSane(s.five, key, w.From(i), w.To(i));
    RowsAreSane(s.hour, key, w.From(i), w.To(i));
  }

  /** The raw samples' part of every bucket. */
  method ReadRaw(s: Store<Reading, Row>, key: Key, w: Window, acc: Acc)
    returns (lows: seq<Option<real>>, ghost aggs: seq<Agg>)
    requires w.width > 0 && acc.Valid() && acc.total.Length == w.count
    requires forall i :: 0 <= i < w.count ==> acc.At(i) == Cell(0.0, 0.0, None)
    modifies acc.total, acc.weight, acc.peak
    ensures CellsAre(acc, lows, aggs)
    ensures forall i :: 0 <= i < w.count ==> aggs[i] == RawAt(s, key, w, i)
  {
    lows := seq(w.count, _ => None);
    aggs := seq(w.count, _ => NOTHING);
    assert CellOf(NOTHING) == Cell(0.0, 0.0, None);
    var todo := RawIndexes(s, key, w);
    forall i | 0 <= i < w.count && i !in todo ensures RawAt(s, key, w, i) == NOTHING {
      NoRawThere(s, key, w, i);
    }
    while todo != {}
      invariant CellsAre(acc, lows, aggs)
      invariant forall i :: 0 <= i < w.count ==> aggs[i] == if i in todo then NOTHING else RawAt(s, key, w, i)
      decreases |todo|
    {
      var i := Take(todo);
      var a := RawAt(s, key, w, i);
      RawAtIsSane(s, key, w, i);
      lows := AddGroup(acc, lows, i, a, aggs);
      aggs := MoreAt(aggs, i, a);
      todo := todo - {i};
    }
  }

  /** The rollup rows' part, of both widths at once. */
  method ReadRows(s: Store<Reading, Row>, key: Key, w: Window, acc: Acc, before: seq<Option<real>>, ghost raw: seq<Agg>)
    returns (lows: seq<Option<real>>, ghost aggs: seq<Agg>)
    requires w.width > 0 && acc.Valid() && acc.total.Length == w.count && CellsAre(acc, before, raw)
    modifies acc.total, acc.weight, acc.peak
    ensures CellsAre(acc, lows, aggs)
    ensures forall i :: 0 <= i < w.count ==> aggs[i] == Plus(raw[i], RowsAt(s, key, w, i))
  {
    lows, aggs := before, raw;
    var todo := RowIndexes(s, key, w);
    forall i | 0 <= i < w.count && i !in todo ensures Plus(raw[i], RowsAt(s, key, w, i)) == raw[i] {
      NoRowsThere(s, key, w, i);
      PlusLaws(raw[i], NOTHING, NOTHING);
    }
    while todo != {}
      invariant CellsAre(acc, lows, aggs)
      invariant forall i :: 0 <= i < w.count ==>
                  aggs[i] == if i in todo then raw[i] else Plus(raw[i], RowsAt(s, key, w, i))
      decreases |todo|
    {
      var i := Take(todo);
      var b := RowsAt(s, key, w, i);
      RowsAtAreSane(s, key, w, i);
      lows := AddGroup(acc, lows, i, b, aggs);
      aggs := MoreAt(aggs, i, b);
      todo := todo - {i};
    }
  }

  /** A metric's chart: for every bucket the mean, the top and the bottom of what is held there. */
  method CustomHistory(s: Store<Reading, Row>, key: Key, w: Window)
    returns (avg: seq<Option<real>>, high: seq<Option<real>>, low: seq<Option<real>>)
    requires w.width > 0
    ensures |avg| == |high| == |low| == w.count
    ensures forall i :: 0 <= i < w.count ==>
              var all := Held(s, key, w.From(i), w.To(i));
              avg[i] == Mean(all) && high[i] == all.high && low[i] == all.low
  {
    var acc := new Acc(w.count);
    ghost var raw, all;
    low, raw := ReadRaw(s, key, w, acc);
    low, all := ReadRows(s, key, w, acc, low, raw);
    avg, high := acc.Averages();
    forall i | 0 <= i < w.count ensures all[i] == Held(s, key, w.From(i), w.To(i)) {
    }
  }

  // ------------------------------------------------------------------- exactness

  /** Every rollup row inside the interval lies in it whole, and nothing in it
      has expired. */
  ghost predicate Fits(c: Cuts, lo: int, hi: int) {
    && lo <= hi && c.hour <= lo
    && (c.raw <= lo || (lo % FIVE_MINUTES == 0 && hi % FIVE_MINUTES == 0))
    && (c.five <= lo || (lo % ONE_HOUR == 0 && hi % ONE_HOUR == 0))
  }

  lemma ThreeParts(log: Log, key: Key, lo: int, p: int, q: int, hi: int)
    requires lo <= p <= q <= hi
    ensures AggOf(ROLLUP, log, key, lo, hi)
            == Plus(AggOf(ROLLUP, log, key, q, hi), Plus(AggOf(ROLLUP, log, key, p, q), AggOf(ROLLUP, log, key, lo, p)))
  {
    var x, y, z := AggOf(ROLLUP, log, key, lo, p), AggOf(ROLLUP, log, key, p, q), AggOf(ROLLUP, log, key, q, hi);
    RollupIsLawful();
    AggSplit(ROLLUP, log, key, lo, p, hi);
    AggSplit(ROLLUP, log, key, p, q, hi);
    PlusIs(y, z);
    PlusIs(x, Plus(y, z));
    PlusLaws(x, y, z);
    PlusLaws(Plus(x, y), z, x);
  }

  /** Where the tables hand over inside the interval. */
  lemma Handover(c: Cuts, lo: int, hi: int) returns (p: int, q: int)
    requires InOrder(c) && Fits(c, lo, hi)
    ensures p == Min(Max(c.five, lo), hi) && q == Min(Max(c.raw, lo), hi) && lo <= p <= q <= hi
    ensures p == lo || (lo % ONE_HOUR == 0 && p % ONE_HOUR == 0)
    ensures p == q || (p % FIVE_MINUTES == 0 && q % FIVE_MINUTES == 0)
  {
    p, q := Min(Max(c.five, lo), hi), Min(Max(c.raw, lo), hi);
    HourIsFives(c.five);
  }

  /** The three tables together hold of every fitting interval exactly what the
      samples ever recorded in it come to. */
  lemma {:induction false} HeldIsExact(log: Log, c: Cuts, key: Key, lo: int, hi: int)
    requires InOrder(c) && Fits(c, lo, hi) && AllValued(log, key)
    ensures Held(TablesOf(ROLLUP, log, c), key, lo, hi) == AggOf(ROLLUP, log, key, lo, hi)
  {
    var p, q := Handover(c, lo, hi);
    ThreeParts(log, key, lo, p, q, hi);
    RollupIsLawful();
    RawClipped(ROLLUP, log, c.raw, key, lo, q, hi);
    FivePart(log, c, key, lo, p, q, hi);
    HourPart(log, c, key, lo, p, hi);
  }

  lemma {:induction false} FivePart(log: Log, c: Cuts, key: Key, lo: int, p: int, q: int, hi: int)
    requires lo <= p <= q <= hi && p == Min(Max(c.five, lo), hi) && q == Min(Max(c.raw, lo), hi)
    requires p == q || (p % FIVE_MINUTES == 0 && q % FIVE_MINUTES == 0)
    requires AllValued(log, key)
    ensures SumRows(ROLLUP, Between(FiveRows(ROLLUP, log), c.five, c.raw), key, lo, hi) == AggOf(ROLLUP, log, key, p, q)
  {
    RollupIsLawful();
    SumClipped(ROLLUP, FiveRows(ROLLUP, log), c.five, c.raw, key, lo, p, q, hi);
    if p == q {
      EmptyAgrees(FiveRows(ROLLUP, log), log, key, p);
    } else {
      FiveRowsExact(log, key, p, q);
    }
  }

  lemma {:induction false} HourPart(log: Log, c: Cuts, key: Key, lo: int, p: int, hi: int)
    requires c.hour <= lo <= p <= hi && p == Min(Max(c.five, lo), hi)
    requires p == lo || (lo % ONE_HOUR == 0 && p % ONE_HOUR == 0)
    requires AllValued(log, key)
    ensures SumRows(ROLLUP, Between(HourRows(ROLLUP, log), c.hour, c.five), key, lo, hi)
            == AggOf(ROLLUP, log, key, lo, p)
  {
    RollupIsLawful();
    SumClipped(ROLLUP, HourRows(ROLLUP, log), c.hour, c.five, key, lo, lo, p, hi);
    if p == lo {
      EmptyAgrees(HourRows(ROLLUP, log), log, key, lo);
    } else {
      HourRowsExact(log, key, lo, p);
    }
  }

  /** After any fair run of polls and nights, the chart of a custom metric is the
      chart of the raw samples as they were recorded, never folded: the same
      average, highest and lowest in every bucket. */
  lemma {:induction false} ChartIsOfTheRawSamples(evs: seq<Event<Reading>>, key: Key, w: Window, i: nat)
    requires Fair(evs) && AllValued(LogOf(evs), key) && w.width > 0
    requires Fits(ReachedBy(evs), w.From(i), w.To(i))
    ensures Held(StoreAfter(ROLLUP, evs), key, w.From(i), w.To(i))
            == Held(Store(LogOf(evs), map[], map[]), key, w.From(i), w.To(i))
  {
    var log := LogOf(evs);
    TablesAreAFunctionOfTheLog(ROLLUP, evs);
    HeldIsExact(log, ReachedBy(evs), key, w.From(i), w.To(i));
    NoRows(ROLLUP, key, w.From(i), w.To(i));
    PlusLaws(NOTHING, NOTHING, NOTHING);
    PlusLaws(AggOf(ROLLUP, log, key, w.From(i), w.To(i)), NOTHING, NOTHING);
  }

  /** A range a reader can pick, and how wide its buckets are. */
  predicate IsRange(span: nat, width: nat) {
    || (span == 3600 && width == 60)
    || (span == ONE_DAY && width == 300)
    || (span == 7 * ONE_DAY && width == 1800)
    || (span == 30 * ONE_DAY && width == 7200)
  }

  /** With raw rows kept a day or more, five-minute rows a week and hourly rows
      a month, every bucket of every range fits. The last condition is needed
      by the 30-day range alone, the second by the 7-day range. */
  lemma {:induction false} EveryRangeFits(now: nat, span: nat, width: nat, c: Cuts, i: nat)
    requires IsRange(span, width) && i < Ending(now, span, width).count
    requires c.raw <= now - ONE_DAY && c.five <= now - 7 * ONE_DAY && c.hour <= now - 30 * ONE_DAY
    ensures var w := Ending(now, span, width);
            && w.start <= w.From(i) && w.To(i) <= w.start + span && now < w.start + span <= now + width
            && Fits(c, w.From(i), w.To(i))
  {
    var w := Ending(now, span, width);
    var q := now / width + 1 + i;
    if width == 60 {
      assert w.From(i) == 60 * q - 3600;
    } else if width == 300 {
      assert w.From(i) == 300 * (q - 288);
      MultipleOfFives(q - 288);
    } else if width == 1800 {
      assert w.From(i) == 300 * (6 * q - 2016);
      MultipleOfFives(6 * q - 2016);
      MultipleOfFives(6 * q - 2016 + 6);
    } else {
      assert w.From(i) == 3600 * (2 * q - 720);
      MultipleOfHours(2 * q - 720);
      MultipleOfHours(2 * q - 720 + 2);
    }
  }

  lemma MultipleOfFives(m: int)
    ensures (300 * m) % FIVE_MINUTES == 0 && (300 * m + 300) % FIVE_MINUTES == 0
  {
    assert 300 * m + 300 == 300 * (m + 1);
  }

  lemma MultipleOfHours(m: int)
    ensures (3600 * m) % ONE_HOUR == 0 && (3600 * m) % FIVE_MINUTES == 0
  {
    assert 3600 * m == 300 * (12 * m);
  }

  // ------------------------------------------------------ the charts the page offers

  /** A night up to now that keeps a day of raw rows or more, a week of
      five-minute rows and a month of hourly ones. */
  predicate Keeps(n: Settings, now: int) {
    n.started <= now && 1 <= n.rawDays && 7 <= n.fiveDays && 30 <= n.hourlyDays
  }

  ghost predicate KeepingNight(d: Cuts, now: int) {
    exists n :: IsSafeNight(n, d) && Keeps(n, now)
  }

  /** A run of the program that has kept what its charts need. */
  ghost predicate KeepingRun(evs: seq<Event<Reading>>, now: int) {
    && ProgramRun(evs) && 30 * ONE_DAY <= now
    && forall i :: 0 <= i < |evs| && evs[i].Ran? ==> KeepingNight(evs[i].cuts, now)
  }

  lemma {:induction false} ReachedWithin(evs: seq<Event<Reading>>, now: int)
    requires KeepingRun(evs, now)
    ensures var c := ReachedBy(evs);
            c.raw <= now - ONE_DAY && c.five <= now - 7 * ONE_DAY && c.hour <= now - 30 * ONE_DAY
    decreases |evs|
  {
    if evs != [] {
      var n := |evs| - 1;
      forall i | 0 <= i < n ensures evs[..n][..i] == evs[..i] {
      }
      ReachedWithin(evs[..n], now);
      if evs[n].Ran? {
        var x :| IsSafeNight(x, evs[n].cuts) && Keeps(x, now);
        FloorFive(x.started - x.rawDays * ONE_DAY, 0);
        FloorHour(x.started - x.fiveDays * ONE_DAY, 0);
        FloorHour(x.started - x.hourlyDays * ONE_DAY, 0);
      }
    }
  }

  /** After any such run every bucket of every chart on offer is what the raw
      samples alone would have given, had none ever been folded or deleted. */
  lemma {:induction false} OfferedChartsAreExact(evs: seq<Event<Reading>>, key: Key, now: nat, span: nat, width: nat,
          i: nat)
    requires KeepingRun(evs, now) && AllValued(LogOf(evs), key)
    requires IsRange(span, width) && i < Ending(now, span, width).count
    ensures var w := Ending(now, span, width);
            Held(StoreAfter(ROLLUP, evs), key, w.From(i), w.To(i))
            == Held(Store(LogOf(evs), map[], map[]), key, w.From(i), w.To(i))
  {
    var w := Ending(now, span, width);
    ProgramRunsAreFair(evs);
    ReachedWithin(evs, now);
    EveryRangeFits(now, span, width, ReachedBy(evs), i);
    ChartIsOfTheRawSamples(evs, key, w, i);
  }
}
