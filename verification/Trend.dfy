/** The line that fits a disk's samples best, how fast it rises and when it meets
    the disk's size (storage.py). Days and bytes are real numbers. */
module Trend {
  import opened Prelude

  const DAY := 86400.0
  const TREND_NEEDS_DAYS := 2.0
  const NOT_GROWING := 1000000.0

  /** A sample: when, in seconds, and the bytes used and in all. */
  datatype Sample = Sample(ts: real, used: real, size: real)

  datatype Fit = Fit(perDay: real, daysLeft: Option<real>, span: real, fullAt: Option<real>)

  function Sum(xs: seq<real>): real {
    if xs == [] then 0.0 else Sum(xs[..|xs| - 1]) + xs[|xs| - 1]
  }

  function Mean(xs: seq<real>): real
    requires xs != []
  {
    Sum(xs) / |xs| as real
  }

  function Times(a: real, b: real): real {
    a * b
  }

  /** The sum of the products of both sides' distances from `mx` and `my`. */
  function Products(xs: seq<real>, ys: seq<real>, mx: real, my: real): real
    requires |xs| == |ys|
  {
    if xs == [] then 0.0
    else
      var n := |xs| - 1;
      Products(xs[..n], ys[..n], mx, my) + Times(xs[n] - mx, ys[n] - my)
  }

  function Days(samples: seq<Sample>): (xs: seq<real>)
    requires samples != []
    ensures |xs| == |samples| && forall i :: 0 <= i < |xs| ==> xs[i] == (samples[i].ts - samples[0].ts) / DAY
  {
    seq(|samples|, i requires 0 <= i < |samples| => (samples[i].ts - samples[0].ts) / DAY)
  }

  function Used(samples: seq<Sample>): (ys: seq<real>)
    ensures |ys| == |samples| && forall i :: 0 <= i < |ys| ==> ys[i] == samples[i].used
  {
    seq(|samples|, i requires 0 <= i < |samples| => samples[i].used)
  }

  function Spread(xs: seq<real>): real
    requires xs != []
  {
    Products(xs, xs, Mean(xs), Mean(xs))
  }

  function Slope(xs: seq<real>, ys: seq<real>): real
    requires |xs| == |ys| && xs != [] && Spread(xs) > 0.0
  {
    Products(xs, ys, Mean(xs), Mean(ys)) / Spread(xs)
  }

  /** The trend of some samples, oldest first; none until there are enough. */
  function TrendOf(samples: seq<Sample>): Option<Fit> {
    if |samples| < 3 || samples[|samples| - 1].ts - samples[0].ts < TREND_NEEDS_DAYS * DAY then None
    else
      var last := samples[|samples| - 1];
      var xs, ys := Days(samples), Used(samples);
      if Spread(xs) <= 0.0 then None
      else
        var perDay, span := Slope(xs, ys), last.ts - samples[0].ts;
        if perDay < NOT_GROWING then Some(Fit(perDay, None, span, None))
        else
          var days := MaxReal(0.0, last.size - last.used) / perDay;
          Some(Fit(perDay, Some(days), span, Some(last.ts + days * DAY)))
  }

  // ----------------------------------------------------------------- sums of products

  function Distances(xs: seq<real>, mx: real): real {
    if xs == [] then 0.0 else Distances(xs[..|xs| - 1], mx) + (xs[|xs| - 1] - mx)
  }

  lemma {:induction false} DistancesAre(xs: seq<real>, mx: real)
    ensures Distances(xs, mx) == Sum(xs) - |xs| as real * mx
  {
    if xs != [] {
      var n := |xs| - 1;
      DistancesAre(xs[..n], mx);
      assert |xs| as real == n as real + 1.0;
      assert (n as real + 1.0) * mx == n as real * mx + mx;
    }
  }

  /** The distances from the mean cancel out. */
  lemma {:induction false} MeanBalances(xs: seq<real>)
    requires xs != []
    ensures Distances(xs, Mean(xs)) == 0.0
  {
    DistancesAre(xs, Mean(xs));
    assert |xs| as real * (Sum(xs) / |xs| as real) == Sum(xs);
  }

  lemma ProductShift(a: real, y: real, my: real, c: real)
    ensures Times(a, y - my) == Times(a, y - c) + Times(c - my, a)
  {
  }

  lemma Distribute(k: real, a: real, b: real)
    ensures Times(k, a + b) == Times(k, a) + Times(k, b)
  {
  }

  /** Measured from the mean on one side, the other side's origin is free. */
  lemma {:induction false} OtherOrigin(xs: seq<real>, ys: seq<real>, mx: real, my: real, c: real)
    requires |xs| == |ys|
    ensures Products(xs, ys, mx, my) == Products(xs, ys, mx, c) + Times(c - my, Distances(xs, mx))
  {
    if xs != [] {
      var n := |xs| - 1;
      OtherOrigin(xs[..n], ys[..n], mx, my, c);
      ProductShift(xs[n] - mx, ys[n], my, c);
      Distribute(c - my, Distances(xs[..n], mx), xs[n] - mx);
    }
  }

  lemma {:induction false} AnyOrigin(xs: seq<real>, ys: seq<real>, c: real)
    requires |xs| == |ys| && xs != []
    ensures Products(xs, ys, Mean(xs), Mean(ys)) == Products(xs, ys, Mean(xs), c)
  {
    MeanBalances(xs);
    OtherOrigin(xs, ys, Mean(xs), Mean(ys), c);
  }

  // ------------------------------------------------------------- never growing, never full

  ghost predicate Rising(xs: seq<real>) {
    forall i, j :: 0 <= i < j < |xs| ==> xs[i] <= xs[j]
  }

  ghost predicate Falling(ys: seq<real>) {
    forall i, j :: 0 <= i < j < |ys| ==> ys[i] >= ys[j]
  }

  /** Each product is of opposite signs, or nothing. */
  ghost predicate Opposed(xs: seq<real>, ys: seq<real>, mx: real, c: real)
    requires |xs| == |ys|
  {
    forall i :: 0 <= i < |xs| ==> (xs[i] <= mx && ys[i] >= c) || (xs[i] >= mx && ys[i] <= c)
  }

  lemma OpposedProduct(a: real, b: real)
    requires (a <= 0.0 && b >= 0.0) || (a >= 0.0 && b <= 0.0)
    ensures Times(a, b) <= 0.0
  {
  }

  lemma {:induction false} OpposedProducts(xs: seq<real>, ys: seq<real>, mx: real, c: real)
    requires |xs| == |ys| && Opposed(xs, ys, mx, c)
    ensures Products(xs, ys, mx, c) <= 0.0
  {
    if xs != [] {
      var n := |xs| - 1;
      OpposedProducts(xs[..n], ys[..n], mx, c);
      OpposedProduct(xs[n] - mx, ys[n] - c);
    }
  }

  /** Chebyshev's sum inequality, about the last sample not past the mean. */
  lemma {:induction false} RisingAgainstFalling(xs: seq<real>, ys: seq<real>)
    requires |xs| == |ys| && xs != [] && Rising(xs) && Falling(ys)
    ensures Products(xs, ys, Mean(xs), Mean(ys)) <= 0.0
  {
    var mx, k := Mean(xs), |xs| - 1;
    while k > 0 && xs[k] > mx
      invariant 0 <= k < |xs| && forall i :: k < i < |xs| ==> xs[i] > mx
      decreases k
    {
      k := k - 1;
    }
    if xs[k] > mx {
      assert Opposed(xs, ys, mx, ys[0]);
      OpposedProducts(xs, ys, mx, ys[0]);
      AnyOrigin(xs, ys, ys[0]);
    } else {
      assert Opposed(xs, ys, mx, ys[k]);
      OpposedProducts(xs, ys, mx, ys[k]);
      AnyOrigin(xs, ys, ys[k]);
    }
  }

  lemma QuotientSign(a: real, b: real)
    requires b > 0.0
    ensures a <= 0.0 ==> a / b <= 0.0
  {
  }

  ghost predicate InOrder(samples: seq<Sample>) {
    forall i, j :: 0 <= i < j < |samples| ==> samples[i].ts <= samples[j].ts
  }

  ghost predicate NeverGrows(samples: seq<Sample>) {
    forall i, j :: 0 <= i < j < |samples| ==> samples[i].used >= samples[j].used
  }

  lemma DaysRise(a: real, b: real, start: real)
    requires a <= b
    ensures (a - start) / DAY <= (b - start) / DAY
  {
  }

  /** A disk whose used space never grows is never said to be filling. */
  lemma {:induction false} NeverFilling(samples: seq<Sample>)
    requires InOrder(samples) && NeverGrows(samples)
    ensures match TrendOf(samples)
            case None => true
            case Some(fit) => fit.perDay <= 0.0 && fit.daysLeft == None && fit.fullAt == None
  {
    if TrendOf(samples).Some? {
      var xs, ys := Days(samples), Used(samples);
      forall i, j | 0 <= i < j < |xs| ensures xs[i] <= xs[j] {
        DaysRise(samples[i].ts, samples[j].ts, samples[0].ts);
      }
      RisingAgainstFalling(xs, ys);
      QuotientSign(Products(xs, ys, Mean(xs), Mean(ys)), Spread(xs));
    }
  }

  // -------------------------------------------------------------------- enough is enough

  lemma Positive(a: real, b: real)
    requires a > 0.0 && b > 0.0
    ensures Times(a, b) > 0.0
  {
  }

  lemma Negated(a: real)
    ensures Times(-a, -a) == Times(a, a)
  {
  }

  lemma Square(a: real)
    ensures Times(a, a) >= 0.0 && (a != 0.0 ==> Times(a, a) > 0.0)
  {
    Negated(a);
    if a > 0.0 {
      Positive(a, a);
    } else if a < 0.0 {
      Positive(-a, -a);
    }
  }

  lemma {:induction false} SquaresAdd(xs: seq<real>, mx: real, k: int)
    requires -1 <= k < |xs| && (k >= 0 ==> xs[k] != mx)
    ensures Products(xs, xs, mx, mx) >= 0.0 && (k >= 0 ==> Products(xs, xs, mx, mx) > 0.0)
    decreases |xs|
  {
    if xs != [] {
      var n := |xs| - 1;
      Square(xs[n] - mx);
      SquaresAdd(xs[..n], mx, if k == n then -1 else k);
    }
  }

  /** Two different instants are spread. */
  lemma {:induction false} DifferentAreSpread(xs: seq<real>, i: nat, j: nat)
    requires i < |xs| && j < |xs| && xs[i] != xs[j]
    ensures Spread(xs) > 0.0
  {
    SquaresAdd(xs, Mean(xs), if xs[i] != Mean(xs) then i else j);
  }

  /** There is a trend exactly from three samples over two days on: the check for
      no spread never says no. */
  lemma {:induction false} TrendExactlyWhenEnough(samples: seq<Sample>)
    ensures TrendOf(samples).Some? <==>
            |samples| >= 3 && samples[|samples| - 1].ts - samples[0].ts >= TREND_NEEDS_DAYS * DAY
  {
    if |samples| >= 3 && samples[|samples| - 1].ts - samples[0].ts >= TREND_NEEDS_DAYS * DAY {
      var xs := Days(samples);
      assert xs[0] == 0.0 && xs[|xs| - 1] > 0.0;
      DifferentAreSpread(xs, 0, |xs| - 1);
    }
  }

  // ------------------------------------------------------------------ samples on a line

  /** Every sample lies on one line. */
  ghost predicate OnLine(xs: seq<real>, ys: seq<real>, a: real, b: real)
    requires |xs| == |ys|
  {
    forall i :: 0 <= i < |xs| ==> ys[i] == Times(a, xs[i]) + b
  }

  lemma LineProduct(a: real, x: real, mx: real, b: real)
    ensures Times(x - mx, Times(a, x) + b - (Times(a, mx) + b)) == Times(a, Times(x - mx, x - mx))
  {
    assert Times(a, x) + b - (Times(a, mx) + b) == a * (x - mx);
  }

  lemma {:induction false} LineProducts(xs: seq<real>, ys: seq<real>, a: real, b: real, mx: real)
    requires |xs| == |ys| && OnLine(xs, ys, a, b)
    ensures Products(xs, ys, mx, Times(a, mx) + b) == Times(a, Products(xs, xs, mx, mx))
  {
    if xs != [] {
      var n := |xs| - 1;
      LineProducts(xs[..n], ys[..n], a, b, mx);
      LineProduct(a, xs[n], mx, b);
      Distribute(a, Products(xs[..n], xs[..n], mx, mx), Times(xs[n] - mx, xs[n] - mx));
    }
  }

  lemma Cancel(a: real, s: real)
    requires s > 0.0
    ensures Times(a, s) / s == a
  {
  }

  /** Samples on a line have that line's slope. */
  lemma {:induction false} LineHasItsSlope(xs: seq<real>, ys: seq<real>, a: real, b: real)
    requires |xs| == |ys| && xs != [] && Spread(xs) > 0.0 && OnLine(xs, ys, a, b)
    ensures Slope(xs, ys) == a
  {
    AnyOrigin(xs, ys, Times(a, Mean(xs)) + b);
    LineProducts(xs, ys, a, b, Mean(xs));
    Cancel(a, Spread(xs));
  }

  lemma ReachesSize(a: real, days: real, free: real, x: real, b: real)
    requires a > 0.0 && days == free / a
    ensures Times(a, x + days) + b == Times(a, x) + b + free
  {
    assert a * (free / a) == free;
  }

  lemma DaysAhead(last: real, start: real, days: real)
    ensures (last + days * DAY - start) / DAY == (last - start) / DAY + days
  {
  }

  /** For samples on a line that grows, the instant given is the one at which that
      line reaches the size, or the last sample's if it is full already. */
  lemma {:induction false} LineReachesItsSize(samples: seq<Sample>, a: real, b: real)
    requires TrendOf(samples).Some? && a >= NOT_GROWING && OnLine(Days(samples), Used(samples), a, b)
    ensures var fit, last := TrendOf(samples).value, samples[|samples| - 1];
            && fit.perDay == a && fit.fullAt.Some?
            && Times(a, (fit.fullAt.value - samples[0].ts) / DAY) + b == MaxReal(last.size, last.used)
  {
    var xs, last := Days(samples), samples[|samples| - 1];
    LineHasItsSlope(xs, Used(samples), a, b);
    var free := MaxReal(0.0, last.size - last.used);
    var days, x := free / a, xs[|xs| - 1];
    DaysAhead(last.ts, samples[0].ts, days);
    ReachesSize(a, days, free, x, b);
    assert last.used == Used(samples)[|samples| - 1];
  }

  /** ... and if it does not grow enough to tell from noise, none is given. */
  lemma {:induction false} SlowLineIsNotFilling(samples: seq<Sample>, a: real, b: real)
    requires TrendOf(samples).Some? && a < NOT_GROWING && OnLine(Days(samples), Used(samples), a, b)
    ensures TrendOf(samples).value.perDay == a && TrendOf(samples).value.daysLeft == None
  {
    LineHasItsSlope(Days(samples), Used(samples), a, b);
  }

  // ------------------------------------------------------------------ the best line there is

  /** How far some samples are from a line, squared and added up. */
  function Miss(xs: seq<real>, ys: seq<real>, p: real, q: real): real
    requires |xs| == |ys|
  {
    if xs == [] then 0.0
    else
      var n := |xs| - 1;
      var off := ys[n] - (Times(p, xs[n]) + q);
      Miss(xs[..n], ys[..n], p, q) + Times(off, off)
  }

  lemma MissTerm(u: real, v: real, p: real, d: real)
    ensures Times(v - Times(p, u) + d, v - Times(p, u) + d) ==
            Times(v, v) - 2.0 * Times(p, Times(u, v)) + Times(Times(p, p), Times(u, u))
            + 2.0 * Times(d, v) - 2.0 * Times(Times(d, p), u) + Times(d, d)
  {
  }

  lemma Centre(x: real, y: real, p: real, q: real, mx: real, my: real)
    ensures y - (Times(p, x) + q) == (y - my) - Times(p, x - mx) + (my - Times(p, mx) - q)
  {
    Distribute(p, x - mx, mx);
  }

  lemma AddUp(k: real, a: real, b: real, n: nat, d: real)
    ensures Times(k, a + b) == Times(k, a) + Times(k, b)
    ensures (n + 1) as real * d == n as real * d + d
  {
    assert (n + 1) as real == n as real + 1.0;
  }

  /** The miss of any line, in the sums of products. */
  lemma {:induction false} MissIs(xs: seq<real>, ys: seq<real>, p: real, q: real, mx: real, my: real)
    requires |xs| == |ys|
    ensures var d := my - Times(p, mx) - q;
            Miss(xs, ys, p, q) ==
            Products(ys, ys, my, my) - 2.0 * Times(p, Products(xs, ys, mx, my))
            + Times(Times(p, p), Products(xs, xs, mx, mx))
            + 2.0 * Times(d, Distances(ys, my)) - 2.0 * Times(Times(d, p), Distances(xs, mx))
            + |xs| as real * Times(d, d)
  {
    if xs != [] {
      var n, d := |xs| - 1, my - Times(p, mx) - q;
      var u, v := xs[n] - mx, ys[n] - my;
      MissIs(xs[..n], ys[..n], p, q, mx, my);
      Centre(xs[n], ys[n], p, q, mx, my);
      MissTerm(u, v, p, d);
      AddUp(p, Products(xs[..n], ys[..n], mx, my), Times(u, v), n, Times(d, d));
      AddUp(Times(p, p), Products(xs[..n], xs[..n], mx, mx), Times(u, u), n, 0.0);
      AddUp(d, Distances(ys[..n], my), v, n, 0.0);
      AddUp(Times(d, p), Distances(xs[..n], mx), u, n, 0.0);
    }
  }

  lemma SquareLeast(s: real, c: real, p: real, best: real)
    requires s > 0.0 && c == Times(best, s)
    ensures Times(Times(p, p), s) - 2.0 * Times(p, c) >= Times(Times(best, best), s) - 2.0 * Times(best, c)
  {
    var e := p - best;
    assert e * e >= 0.0;
    assert e * e * s >= 0.0;
    assert e * e * s == p * p * s - 2.0 * p * (best * s) + best * best * s;
  }

  /** The line through the centre with this slope misses the samples by least, of
      all the lines there are. */
  lemma {:induction false} NoLineFitsBetter(xs: seq<real>, ys: seq<real>, p: real, q: real)
    requires |xs| == |ys| && xs != [] && Spread(xs) > 0.0
    ensures Miss(xs, ys, p, q) >= Miss(xs, ys, Slope(xs, ys), Mean(ys) - Times(Slope(xs, ys), Mean(xs)))
  {
    var mx, my, best := Mean(xs), Mean(ys), Slope(xs, ys);
    var d := my - Times(p, mx) - q;
    MeanBalances(xs);
    MeanBalances(ys);
    MissIs(xs, ys, p, q, mx, my);
    MissIs(xs, ys, best, my - Times(best, mx), mx, my);
    Square(d);
    NothingTimes(d, p, |xs|, Times(d, d));
    NothingTimes(0.0, best, |xs|, 0.0);
    QuotientBack(Products(xs, ys, mx, my), Spread(xs));
    SquareLeast(Spread(xs), Products(xs, ys, mx, my), p, best);
  }

  lemma NothingTimes(d: real, p: real, n: nat, square: real)
    requires square >= 0.0
    ensures Times(d, 0.0) == 0.0 && Times(Times(d, p), 0.0) == 0.0 && n as real * square >= 0.0
    ensures square == 0.0 ==> n as real * square == 0.0
  {
  }

  lemma QuotientBack(a: real, s: real)
    requires s > 0.0
    ensures a == Times(a / s, s)
  {
  }
}
