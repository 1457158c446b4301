/** Keeping history without keeping every row (retention.py).

    Raw samples fold into five-minute rows, those into hourly rows, and those
    expire. The statements are modelled one by one on the tables; what they keep
    is stated against a log of every sample ever recorded. Instants are whole
    seconds at or after the epoch. */
module Retention {
  import opened Prelude

  const FIVE_MINUTES := 300
  const ONE_HOUR := 3600
  const ONE_DAY := 86400

  type Key = int

  /** One raw row. */
  datatype Sample<+V> = Sample(key: Key, ts: nat, value: V)

  /** (series, bucket start) -> row, for one bucket width. */
  type Rollup<R> = map<(Key, int), R>

  /** One family of tables: what its raw values aggregate to, the row an
      aggregate is stored as, and what a row adds to a wider one. The ladder is
      the same for all of them. */
  datatype Kind<!V, !A, !R> = Kind(zero: A, one: V -> A, plus: (A, A) -> A, rowOf: A -> R, ofRow: R -> A) {
    function One(v: V): A { one(v) }
    function Plus(a: A, b: A): A { plus(a, b) }
    function RowOf(a: A): R { rowOf(a) }
    function OfRow(r: R): A { ofRow(r) }
  }

  datatype Store<V, R> = Store(raw: seq<Sample<V>>, five: Rollup<R>, hour: Rollup<R>)

  /** Where the bucket of an instant begins. */
  function Floor(when: int, width: int): int
    requires width > 0
  {
    when - when % width
  }

  predicate Within<V>(s: Sample<V>, key: Key, lo: int, hi: int) {
    s.key == key && lo <= s.ts < hi
  }

  /** The aggregate of a series' samples from `lo` up to `hi`. */
  function AggOf<V, A, R>(k: Kind<V, A, R>, log: seq<Sample<V>>, key: Key, lo: int, hi: int): A {
    if log == [] then k.zero
    else
      var n := |log| - 1;
      var before := AggOf(k, log[..n], key, lo, hi);
      if Within(log[n], key, lo, hi) then k.Plus(before, k.One(log[n].value)) else before
  }

  /** The aggregate of a series' rows whose buckets start from `lo` up to `hi`. */
  function SumRows<V, A, R>(k: Kind<V, A, R>, t: Rollup<R>, key: Key, lo: int, hi: int): A
    decreases hi - lo
  {
    if lo >= hi then k.zero
    else
      var rest := SumRows(k, t, key, lo, hi - 1);
      if (key, hi - 1) in t then k.Plus(rest, k.OfRow(t[(key, hi - 1)])) else rest
  }

  // ----------------------------------------------------------------- the statements

  function RawGroups<V(==)>(raw: seq<Sample<V>>, cutoff: int, width: int): set<(Key, int)>
    requires width > 0
  {
    set s | s in raw && s.ts < cutoff :: (s.key, Floor(s.ts, width))
  }

  /** The row a group of raw samples older than the cutoff makes. */
  function RawRow<V, A, R>(k: Kind<V, A, R>, raw: seq<Sample<V>>, g: (Key, int), width: int, cutoff: int): R {
    k.RowOf(AggOf(k, raw, g.0, g.1, Min(g.1 + width, cutoff)))
  }

  /** The row a group of narrower rows older than the cutoff makes. */
  function WideRow<V, A, R>(k: Kind<V, A, R>, narrow: Rollup<R>, g: (Key, int), width: int, cutoff: int): R {
    k.RowOf(SumRows(k, narrow, g.0, g.1, Min(g.1 + width, cutoff)))
  }

  /** INSERT OR IGNORE of one row per group of raw samples older than the cutoff. */
  function FoldRaw<V(==), A, R>(k: Kind<V, A, R>, raw: seq<Sample<V>>, t: Rollup<R>, cutoff: int, width: int): Rollup<R>
    requires width > 0
  {
    (map g | g in RawGroups(raw, cutoff, width) :: RawRow(k, raw, g, width, cutoff)) + t
  }

  function RowGroups<R>(t: Rollup<R>, cutoff: int, width: int): set<(Key, int)>
    requires width > 0
  {
    set g | g in t && g.1 < cutoff :: (g.0, Floor(g.1, width))
  }

  /** INSERT OR IGNORE of one wide row per group of narrow rows older than the cutoff. */
  function FoldRows<V, A, R>(k: Kind<V, A, R>, narrow: Rollup<R>, wide: Rollup<R>, cutoff: int, width: int): Rollup<R>
    requires width > 0
  {
    (map g | g in RowGroups(narrow, cutoff, width) :: WideRow(k, narrow, g, width, cutoff)) + wide
  }

  function KeepRaw<V>(raw: seq<Sample<V>>, cutoff: int): seq<Sample<V>> {
    if raw == [] then []
    else
      var n := |raw| - 1;
      KeepRaw(raw[..n], cutoff) + (if raw[n].ts < cutoff then [] else [raw[n]])
  }

  function KeepRows<R>(t: Rollup<R>, cutoff: int): Rollup<R> {
    map g | g in t && g.1 >= cutoff :: t[g]
  }

  /** The three instants of a night's run. */
  datatype Cuts = Cuts(raw: int, five: int, hour: int)

  /** One night: fold, then delete, on each rung in turn. */
  function Night<V(==), A, R>(k: Kind<V, A, R>, s: Store<V, R>, c: Cuts): Store<V, R> {
    var five := FoldRaw(k, s.raw, s.five, c.raw, FIVE_MINUTES);
    var hour := FoldRows(k, five, s.hour, c.five, ONE_HOUR);
    Store(KeepRaw(s.raw, c.raw), KeepRows(five, c.five), KeepRows(hour, c.hour))
  }

  function Days(setting: Option<int>, default: int): int {
    if setting == None || setting == Some(0) then default else setting.value
  }

  function CutsAt(started: int, rawDays: int, fiveDays: int, hourlyDays: int): Cuts {
    Cuts(Floor(started - rawDays * ONE_DAY, FIVE_MINUTES),
         Floor(started - fiveDays * ONE_DAY, ONE_HOUR),
         Floor(started - hourlyDays * ONE_DAY, ONE_HOUR))
  }

  /** One family's tables, and the nightly statements on them in the program's order. */
  class History<V(==), A, R> {
    const kind: Kind<V, A, R>
    var raw: seq<Sample<V>>
    var five: Rollup<R>
    var hour: Rollup<R>

    ghost function Tables(): Store<V, R>
      reads this
    {
      Store(raw, five, hour)
    }

    constructor (kind: Kind<V, A, R>)
      ensures this.kind == kind && Tables() == Store([], map[], map[])
    {
      this.kind := kind;
      raw, five, hour := [], map[], map[];
    }

    method Record(s: Sample<V>)
      modifies this`raw
      ensures Tables() == old(Tables()).(raw := old(raw) + [s])
    {
      raw := raw + [s];
    }

    /** Downsample and prune: one night, statement by statement. */
    method RunRetention(started: int, rawDays: Option<int>, fiveDays: Option<int>, hourlyDays: Option<int>)
      returns (fiveAdded: int, hourAdded: int)
      modifies this
      ensures Tables()
              == Night(kind, old(Tables()),
                  CutsAt(started, Days(rawDays, 7), Days(fiveDays, 90), Days(hourlyDays, 730)))
    {
      var c := CutsAt(started, Days(rawDays, 7), Days(fiveDays, 90), Days(hourlyDays, 730));
      var before := |five|;
      five := FoldRaw(kind, raw, five, c.raw, FIVE_MINUTES);
      fiveAdded := |five| - before;
      raw := KeepRaw(raw, c.raw);
      before := |hour|;
      hour := FoldRows(kind, five, hour, c.five, ONE_HOUR);
      hourAdded := |hour| - before;
      five := KeepRows(five, c.five);
      hour := KeepRows(hour, c.hour);
    }
  }

  // ------------------------------------------------------------ aggregates add up

  /** Aggregates add up in any order. */
  ghost predicate Lawful<V, A(!new), R>(k: Kind<V, A, R>) {
    && (forall a, b :: k.Plus(a, b) == k.Plus(b, a))
    && (forall a, b, c :: k.Plus(k.Plus(a, b), c) == k.Plus(a, k.Plus(b, c)))
    && (forall a :: k.Plus(a, k.zero) == a)
  }

  lemma {:induction false} AggSplit<V, A(!new), R>(k: Kind<V, A, R>, log: seq<Sample<V>>, key: Key, lo: int,
          mid: int, hi: int)
    requires Lawful(k) && lo <= mid <= hi
    ensures AggOf(k, log, key, lo, hi) == k.Plus(AggOf(k, log, key, lo, mid), AggOf(k, log, key, mid, hi))
    decreases |log|
  {
    if log != [] {
      var n := |log| - 1;
      AggSplit(k, log[..n], key, lo, mid, hi);
      var a, b, x := AggOf(k, log[..n], key, lo, mid), AggOf(k, log[..n], key, mid, hi), k.One(log[n].value);
      assert k.Plus(k.Plus(a, b), x) == k.Plus(a, k.Plus(b, x));
      assert k.Plus(k.Plus(a, x), b) == k.Plus(a, k.Plus(x, b)) == k.Plus(a, k.Plus(b, x));
    }
  }

  lemma {:induction false} AggEmpty<V, A, R>(k: Kind<V, A, R>, log: seq<Sample<V>>, key: Key, lo: int, hi: int)
    requires forall s :: s in log ==> !Within(s, key, lo, hi)
    ensures AggOf(k, log, key, lo, hi) == k.zero
    decreases |log|
  {
    if log != [] {
      AggEmpty(k, log[..|log| - 1], key, lo, hi);
    }
  }

  lemma {:induction false} SumRowsSplit<V, A(!new), R>(k: Kind<V, A, R>, t: Rollup<R>, key: Key, lo: int, mid: int,
          hi: int)
    requires Lawful(k) && lo <= mid <= hi
    ensures SumRows(k, t, key, lo, hi) == k.Plus(SumRows(k, t, key, lo, mid), SumRows(k, t, key, mid, hi))
    decreases hi - mid
  {
    if mid < hi {
      SumRowsSplit(k, t, key, lo, mid, hi - 1);
      if (key, hi - 1) in t {
        var a, b, x := SumRows(k, t, key, lo, mid), SumRows(k, t, key, mid, hi - 1), k.OfRow(t[(key, hi - 1)]);
        assert k.Plus(k.Plus(a, b), x) == k.Plus(a, k.Plus(b, x));
      }
    }
  }

  /** Only the rows in the interval matter. */
  lemma {:induction false} SumRowsSame<V, A, R>(k: Kind<V, A, R>, t: Rollup<R>, u: Rollup<R>, key: Key, lo: int,
          hi: int)
    requires forall b :: lo <= b < hi ==> ((key, b) in t <==> (key, b) in u)
    requires forall b :: lo <= b < hi && (key, b) in t ==> t[(key, b)] == u[(key, b)]
    ensures SumRows(k, t, key, lo, hi) == SumRows(k, u, key, lo, hi)
    decreases hi - lo
  {
    if lo < hi {
      SumRowsSame(k, t, u, key, lo, hi - 1);
    }
  }

  lemma {:induction false} NoRows<V, A, R>(k: Kind<V, A, R>, key: Key, lo: int, hi: int)
    ensures SumRows(k, map[], key, lo, hi) == k.zero
    decreases hi - lo
  {
    if lo < hi {
      NoRows(k, key, lo, hi - 1);
    }
  }

  lemma {:induction false} SumOneRow<V, A(!new), R>(k: Kind<V, A, R>, t: Rollup<R>, key: Key, b: int, lo: int, hi: int)
    requires Lawful(k)
    requires lo <= b < hi && (key, b) in t && forall x :: lo <= x < hi && (key, x) in t ==> x == b
    ensures SumRows(k, t, key, lo, hi) == k.OfRow(t[(key, b)])
    decreases hi - lo
  {
    if hi - 1 == b {
      SumRowsSame(k, t, map[], key, lo, b);
      NoRows(k, key, lo, b);
      assert k.Plus(k.zero, k.OfRow(t[(key, b)])) == k.Plus(k.OfRow(t[(key, b)]), k.zero);
    } else {
      SumOneRow(k, t, key, b, lo, hi - 1);
    }
  }
}
