/** Splitting an outage's time into down, planned and unreachable, to the second
    (availability.py). */
module Availability {
  import opened Prelude
  import opened Forest
  import opened Maintenance

  function Overlap(a0: int, a1: int, b0: int, b1: int): int {
    Max(0, Min(a1, b1) - Max(a0, b0))
  }

  /** The seconds from `a` to `b` spent in one of the spans. */
  function SecondsIn(spans: seq<Span>, a: int, b: int): nat
    decreases b - a
  {
    if a >= b then 0 else SecondsIn(spans, a, b - 1) + if InSpans(spans, b - 1) then 1 else 0
  }

  function TotalOverlap(spans: seq<Span>, a: int, b: int): int {
    if spans == [] then 0
    else TotalOverlap(spans[..|spans| - 1], a, b) + Overlap(a, b, spans[|spans| - 1].start, spans[|spans| - 1].end)
  }

  lemma {:induction false} LastSpan(spans: seq<Span>, t: int)
    requires Apart(spans) && spans != []
    ensures InSpans(spans, t) <==> InSpans(spans[..|spans| - 1], t) || spans[|spans| - 1].Holds(t)
    ensures InSpans(spans[..|spans| - 1], t) ==> !spans[|spans| - 1].Holds(t)
  {
    var n := |spans| - 1;
    if InSpans(spans[..n], t) {
      var i :| 0 <= i < n && spans[..n][i].Holds(t);
      assert spans[i].Holds(t);
    }
    if InSpans(spans, t) && !spans[n].Holds(t) {
      var i :| 0 <= i < |spans| && spans[i].Holds(t);
      assert spans[..n][i].Holds(t);
    }
  }

  lemma {:induction false} SecondsOfOneMore(spans: seq<Span>, a: int, b: int)
    requires Apart(spans) && spans != [] && a <= b
    ensures SecondsIn(spans, a, b) ==
            SecondsIn(spans[..|spans| - 1], a, b) + Overlap(a, b, spans[|spans| - 1].start, spans[|spans| - 1].end)
    decreases b - a
  {
    if a < b {
      SecondsOfOneMore(spans, a, b - 1);
      LastSpan(spans, b - 1);
    }
  }

  /** Adding up the overlaps of disjoint spans counts the seconds in them. */
  lemma {:induction false} OverlapsCountSeconds(spans: seq<Span>, a: int, b: int)
    requires Apart(spans) && a <= b
    ensures TotalOverlap(spans, a, b) == SecondsIn(spans, a, b)
    decreases |spans|
  {
    if spans == [] {
      NothingIn(a, b);
    } else {
      SecondsOfOneMore(spans, a, b);
      OverlapsCountSeconds(spans[..|spans| - 1], a, b);
    }
  }

  lemma {:induction false} NothingIn(a: int, b: int)
    ensures SecondsIn([], a, b) == 0
    decreases b - a
  {
    if a < b {
      NothingIn(a, b - 1);
    }
  }

  /** An overlap is a count of seconds in both stretches. */
  lemma {:induction false} OverlapCountsSeconds(a0: int, a1: int, b0: int, b1: int)
    requires a0 <= a1 && b0 <= b1
    ensures Overlap(a0, a1, b0, b1) == SecondsIn([Span(b0, b1)], a0, a1)
  {
    var spans := [Span(b0, b1)];
    assert spans[..0] == [];
    OverlapsCountSeconds(spans, a0, a1);
  }

  /** Those seconds from `a` to `b` that some window covers the device in. */
  ghost function SecondsUnder(windows: seq<Window>, device: Option<Id>, above: set<Id>, a: int, b: int): nat
    decreases b - a
  {
    if a >= b then 0
    else SecondsUnder(windows, device, above, a, b - 1)
         + if device.Some? && Under(windows, device.value, above, b - 1) then 1 else 0
  }

  lemma {:induction false} SpansCountUnder(spans: seq<Span>, windows: seq<Window>, device: Id, above: set<Id>,
          start: int, end: int, a: int, b: int)
    requires AreSpansOver(spans, windows, device, above, start, end) && start <= a && b <= end
    ensures SecondsIn(spans, a, b) == SecondsUnder(windows, Some(device), above, a, b)
    decreases b - a
  {
    if a < b {
      SpansCountUnder(spans, windows, device, above, start, end, a, b - 1);
    }
  }

  lemma {:induction false} NoDevice(windows: seq<Window>, above: set<Id>, a: int, b: int)
    ensures SecondsUnder(windows, None, above, a, b) == 0
    decreases b - a
  {
    if a < b {
      NoDevice(windows, above, a, b - 1);
    }
  }

  lemma {:induction false} UnderWithin(windows: seq<Window>, device: Option<Id>, above: set<Id>, a: int, b: int)
    requires a <= b
    ensures SecondsUnder(windows, device, above, a, b) <= b - a
    decreases b - a
  {
    if a < b {
      UnderWithin(windows, device, above, a, b - 1);
    }
  }

  /** A part of a stretch has no more time free of windows than the whole. */
  lemma {:induction false} FreeWithin(windows: seq<Window>, device: Option<Id>, above: set<Id>, a: int, b: int,
          from: int, upTo: int)
    requires from <= a <= b <= upTo
    ensures (b - a) - SecondsUnder(windows, device, above, a, b)
            <= (upTo - from) - SecondsUnder(windows, device, above, from, upTo)
    decreases (upTo - from)
  {
    if b < upTo {
      FreeWithin(windows, device, above, a, b, from, upTo - 1);
    } else if from < a {
      SplitUnder(windows, device, above, from, a, b);
      UnderWithin(windows, device, above, from, a);
    }
  }

  lemma {:induction false} SplitUnder(windows: seq<Window>, device: Option<Id>, above: set<Id>, a: int, m: int, b: int)
    requires a <= m <= b
    ensures SecondsUnder(windows, device, above, a, b)
            == SecondsUnder(windows, device, above, a, m) + SecondsUnder(windows, device, above, m, b)
    decreases b - m
  {
    if m < b {
      SplitUnder(windows, device, above, a, m, b - 1);
    }
  }

  function Sum(xs: seq<int>): int {
    if xs == [] then 0 else Sum(xs[..|xs| - 1]) + xs[|xs| - 1]
  }

  /** An outage, as the incident row has it. */
  datatype Outage = Outage(began: int, closed: Option<int>, device: Option<Id>, above: set<Id>, explained: bool)

  function Until(o: Outage, now: int): int {
    Min(o.closed.GetOr(now), now)
  }

  function Inside(o: Outage, start: int, end: int, now: int): int {
    Overlap(o.began, Until(o, now), start, end)
  }

  ghost function Planned(windows: seq<Window>, o: Outage, start: int, end: int, now: int): nat {
    SecondsUnder(windows, o.device, o.above, Max(o.began, start), Min(Until(o, now), end))
  }

  /** The whole outage's time, less what was under a window. */
  ghost function Whole(windows: seq<Window>, o: Outage, now: int): int {
    (Until(o, now) - o.began) - SecondsUnder(windows, o.device, o.above, o.began, Until(o, now))
  }

  lemma {:induction false} UnplannedWithinWhole(windows: seq<Window>, o: Outage, start: int, end: int, now: int)
    requires Inside(o, start, end, now) > 0
    ensures 0 <= Inside(o, start, end, now) - Planned(windows, o, start, end, now) <= Whole(windows, o, now)
  {
    var a, b := Max(o.began, start), Min(Until(o, now), end);
    UnderWithin(windows, o.device, o.above, a, b);
    FreeWithin(windows, o.device, o.above, a, b, o.began, Until(o, now));
  }

  /** Every duration is a time, and the longest is the longest. */
  ghost predicate DurationsMatch(durations: seq<int>, longest: int) {
    && 0 <= longest
    && (forall i :: 0 <= i < |durations| ==> 0 < durations[i] <= longest)
    && (longest > 0 ==> longest in durations)
  }

  lemma DurationAdded(durations: seq<int>, longest: int, whole: int)
    requires DurationsMatch(durations, longest) && whole > 0
    ensures DurationsMatch(durations + [whole], Max(longest, whole))
    ensures Sum(durations + [whole]) == Sum(durations) + whole
  {
    assert (durations + [whole])[..|durations|] == durations;
    assert whole in durations + [whole];
  }

  class Figures {
    var down: int
    var unreachable: int
    var planned: int
    var outages: nat
    var longest: int
    var durations: seq<int>

    /** Every unplanned outage has its duration, all of it, so that the durations
        cover the time down; and the longest is the longest. */
    ghost predicate Valid()
      reads this
    {
      && 0 <= down <= Sum(durations) && 0 <= unreachable && 0 <= planned
      && outages == |durations| && DurationsMatch(durations, longest)
    }

    constructor ()
      ensures Valid() && down == unreachable == planned == outages == longest == 0 && durations == []
    {
      down, unreachable, planned, outages, longest, durations := 0, 0, 0, 0, 0, [];
    }

    /** Take one outage into the figures. */
    method Add(windows: seq<Window>, o: Outage, start: int, end: int, now: int, tz: int)
      requires Valid() && forall i :: 0 <= i < |windows| ==> Sane(windows[i])
      modifies this
      ensures Valid()
      ensures down + unreachable + planned == old(down + unreachable + planned) + Inside(o, start, end, now)
      ensures o.explained ==> unreachable == old(unreachable) + Inside(o, start, end, now) && planned == old(planned)
      ensures !o.explained ==> unreachable == old(unreachable)
      ensures !o.explained && Inside(o, start, end, now) > 0 ==>
                planned == old(planned) + Planned(windows, o, start, end, now)
      ensures var counts := down > old(down);
              && outages == old(outages) + (if counts then 1 else 0)
              && durations == old(durations) + (if counts then [Whole(windows, o, now)] else [])
              && longest == (if counts then Max(old(longest), Whole(windows, o, now)) else old(longest))
    {
      var until := Until(o, now);
      var inside := Overlap(o.began, until, start, end);
      if inside <= 0 {
        return;
      }
      if o.explained {
        unreachable := unreachable + inside;
        return;
      }
      var inRange, heldFor := UnderWindows(windows, o, start, end, now, tz);
      UnplannedWithinWhole(windows, o, start, end, now);
      planned := planned + inRange;
      var unplanned := inside - inRange;
      if unplanned > 0 {
        Count(unplanned, (until - o.began) - heldFor);
      }
    }

    /** One more outage nobody planned, and its full length, also outside the range. */
    method Count(unplanned: int, whole: int)
      requires Valid() && 0 < unplanned <= whole
      modifies this`down, this`outages, this`durations, this`longest
      ensures Valid() && down == old(down) + unplanned && outages == old(outages) + 1
      ensures durations == old(durations) + [whole] && longest == Max(old(longest), whole)
    {
      DurationAdded(durations, longest, whole);
      down := down + unplanned;
      outages := outages + 1;
      durations := durations + [whole];
      longest := Max(longest, whole);
    }
  }

  /** How much of an outage windows cover: inside the range, and altogether. */
  method AddUp(held: seq<Span>, began: int, until: int, start: int, end: int) returns (inRange: int, heldFor: int)
    requires Overlap(began, until, start, end) > 0
    ensures inRange == TotalOverlap(held, Max(began, start), Min(until, end))
    ensures heldFor == TotalOverlap(held, began, until)
  {
    inRange, heldFor := 0, 0;
    for i := 0 to |held|
      invariant inRange == TotalOverlap(held[..i], Max(began, start), Min(until, end))
      invariant heldFor == TotalOverlap(held[..i], began, until)
    {
      var h := held[i];
      assert held[..i + 1][..i] == held[..i];
      inRange := inRange + Overlap(Max(began, h.start), Min(until, h.end), start, end);
      heldFor := heldFor + Overlap(began, until, h.start, h.end);
    }
    assert held[..|held|] == held;
  }

  lemma {:induction false} HeldIsUnder(held: seq<Span>, windows: seq<Window>, o: Outage, start: int, end: int, now: int)
    requires Inside(o, start, end, now) > 0
    requires match o.device
             case None => held == []
             case Some(d) => AreSpansOver(held, windows, d, o.above, o.began, Until(o, now))
    ensures TotalOverlap(held, Max(o.began, start), Min(Until(o, now), end)) == Planned(windows, o, start, end, now)
    ensures TotalOverlap(held, o.began, Until(o, now))
            == SecondsUnder(windows, o.device, o.above, o.began, Until(o, now))
  {
    var a, b := Max(o.began, start), Min(Until(o, now), end);
    if o.device.None? {
      NoDevice(windows, o.above, a, b);
      NoDevice(windows, o.above, o.began, Until(o, now));
    } else {
      OverlapsCountSeconds(held, a, b);
      OverlapsCountSeconds(held, o.began, Until(o, now));
      SpansCountUnder(held, windows, o.device.value, o.above, o.began, Until(o, now), a, b);
      SpansCountUnder(held, windows, o.device.value, o.above, o.began, Until(o, now), o.began, Until(o, now));
    }
  }

  method UnderWindows(windows: seq<Window>, o: Outage, start: int, end: int, now: int,
          tz: int) returns (inRange: int, heldFor: int)
    requires Inside(o, start, end, now) > 0 && forall i :: 0 <= i < |windows| ==> Sane(windows[i])
    ensures inRange == Planned(windows, o, start, end, now)
    ensures heldFor == SecondsUnder(windows, o.device, o.above, o.began, Until(o, now))
  {
    var held := [];
    if o.device.Some? {
      held := SpansOver(windows, o.device.value, o.above, o.began, Until(o, now), tz);
    }
    inRange, heldFor := AddUp(held, o.began, Until(o, now), start, end);
    HeldIsUnder(held, windows, o, start, end, now);
  }
}
