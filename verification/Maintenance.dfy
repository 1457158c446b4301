/** Maintenance windows: when one is on, and every stretch a device is under one
    (maintenance.py). Instants are whole seconds and the zone a fixed offset. */
module Maintenance {
  import opened Prelude
  import opened Forest

  const WEEK := 604800

  datatype Window = Window(id: int, device: Id, starts: int, ends: int, weekly: bool, includeBelow: bool)

  datatype Span = Span(start: int, end: int) {
    predicate Holds(t: int) {
      start <= t < end
    }
  }

  /** The number of the last weekly occurrence begun by an instant of the local
      clock, counting from nought; negative if none has. */
  function Index(w: Window, when: int, tz: int): int {
    var first, local := w.starts + tz, when + tz;
    if local < first then -1 else (local - first) / WEEK
  }

  function Occurrence(w: Window, index: int, tz: int): Span {
    var length, first := w.ends - w.starts, w.starts + tz;
    var start := first + index * WEEK - tz;
    Span(start, start + length)
  }

  /** The last occurrence begun by an instant; before any has, the first of all. */
  function SpanAt(w: Window, when: int, tz: int): Span {
    if !w.weekly then Span(w.starts, w.ends) else Occurrence(w, Max(0, Index(w, when, tz)), tz)
  }

  /** Of the occurrences that are over, the last. */
  function LastEnded(w: Window, now: int, tz: int): Option<Span> {
    if !w.weekly then (if w.ends <= now then Some(Span(w.starts, w.ends)) else None)
    else
      var index := Index(w, now, tz);
      if index < 0 then None
      else
        var current := Occurrence(w, index, tz);
        if current.end <= now then Some(current)
        else if index > 0 then Some(Occurrence(w, index - 1, tz)) else None
  }

  /** The first occurrence that is not over. */
  function NextSpan(w: Window, now: int, tz: int): Option<Span> {
    if !w.weekly then (if w.ends <= now then None else Some(Span(w.starts, w.ends)))
    else
      var current := SpanAt(w, now, tz);
      if current.end > now then Some(current) else Some(Occurrence(w, Index(w, now, tz) + 1, tz))
  }

  // ------------------------------------------------------------ what a window means

  /** The stretches of a window, one a week from the first on if it is weekly. */
  ghost predicate IsSpan(w: Window, i: nat, s: Span) {
    (w.weekly || i == 0) && s == Span(w.starts + i * WEEK, w.ends + i * WEEK)
  }

  function SpanNo(w: Window, i: nat): Span {
    Span(w.starts + i * WEEK, w.ends + i * WEEK)
  }

  ghost predicate OneOf(w: Window, s: Span) {
    exists i: nat :: IsSpan(w, i, s)
  }

  ghost predicate OnAt(w: Window, i: nat, t: int) {
    (w.weekly || i == 0) && SpanNo(w, i).Holds(t)
  }

  /** The window is on at an instant. */
  ghost predicate UnderAt(w: Window, t: int) {
    exists i: nat :: OnAt(w, i, t)
  }

  /** A window that could be on: it has started, and it repeats or has not ended. */
  predicate Candidate(w: Window, when: int) {
    w.starts <= when && (w.weekly || w.ends > when)
  }

  predicate On(w: Window, when: int, tz: int) {
    Candidate(w, when) && SpanAt(w, when, tz).Holds(when)
  }

  lemma OccurrenceIs(w: Window, i: nat, tz: int)
    ensures Occurrence(w, i, tz) == SpanNo(w, i)
  {
  }

  lemma IndexIs(w: Window, when: int, tz: int)
    ensures when < w.starts ==> Index(w, when, tz) == -1
    ensures when >= w.starts ==> Index(w, when, tz) >= 0 && SpanNo(w, Index(w, when, tz)).start <= when
    ensures when >= w.starts ==> when < SpanNo(w, Index(w, when, tz)).start + WEEK
  {
  }

  /** One look at the latest begun occurrence decides whether any is on. */
  lemma {:induction false} OnIsUnder(w: Window, when: int, tz: int)
    requires w.starts <= w.ends
    ensures On(w, when, tz) <==> UnderAt(w, when)
  {
    IndexIs(w, when, tz);
    if On(w, when, tz) {
      assert OnAt(w, if w.weekly then Index(w, when, tz) else 0, when);
    }
    if UnderAt(w, when) {
      var i: nat :| OnAt(w, i, when);
      assert !w.weekly || i <= Index(w, when, tz);
    }
  }

  /** No stretch of a window runs into its next. */
  ghost predicate Sane(w: Window) {
    w.starts <= w.ends && (w.weekly ==> w.ends - w.starts <= WEEK)
  }

  /** What `finish` deals with is the latest end there has been, so that no end
      is passed over while it is the latest. */
  lemma {:induction false} LastEndedIsLatest(w: Window, now: int, tz: int)
    requires Sane(w)
    ensures match LastEnded(w, now, tz)
            case None => forall i: nat, s :: IsSpan(w, i, s) ==> s.end > now
            case Some(last) => OneOf(w, last) && last.end <= now
                               && forall i: nat, s :: IsSpan(w, i, s) && s.end <= now ==> s.end <= last.end
  {
    IndexIs(w, now, tz);
    var index := Index(w, now, tz);
    if LastEnded(w, now, tz).Some? {
      var k: nat := if !w.weekly then 0 else if SpanNo(w, index).end <= now then index else index - 1;
      assert IsSpan(w, k, LastEnded(w, now, tz).value);
    }
  }

  /** The next stretch is the earliest that is not over. */
  lemma {:induction false} NextSpanIsNext(w: Window, now: int, tz: int)
    requires Sane(w)
    ensures match NextSpan(w, now, tz)
            case None => forall i: nat, s :: IsSpan(w, i, s) ==> s.end <= now
            case Some(next) => OneOf(w, next) && next.end > now
                               && forall i: nat, s :: IsSpan(w, i, s) && s.end > now ==> s.start >= next.start
  {
    IndexIs(w, now, tz);
    var index := Index(w, now, tz);
    if NextSpan(w, now, tz).Some? {
      var k: nat := if !w.weekly then 0 else if SpanNo(w, Max(0, index)).end > now then Max(0, index) else index + 1;
      assert IsSpan(w, k, NextSpan(w, now, tz).value);
    }
  }

  // ------------------------------------------------------------- who a window covers

  /** The devices a window is for: its own, and those under it if it says so. */
  predicate Applies(w: Window, device: Id, above: set<Id>) {
    w.device == device || (w.includeBelow && w.device in above)
  }

  ghost predicate UnderOne(w: Window, device: Id, above: set<Id>, t: int) {
    Applies(w, device, above) && UnderAt(w, t)
  }

  /** The device is under some window at an instant. */
  ghost predicate Under(windows: seq<Window>, device: Id, above: set<Id>, t: int) {
    exists i :: 0 <= i < |windows| && UnderOne(windows[i], device, above, t)
  }

  /** Looking up from a device finds a window exactly when looking down from the
      window's device, as is done when it ends, finds the device. */
  lemma {:induction false} SameBothWays(p: Parents, w: Window, device: Id, above: set<Id>, below: set<Id>)
    requires Acyclic(p) && (forall a :: a in above <==> Below(p, device, a)) && AreDescendants(p, w.device, below)
    ensures Applies(w, device, above) <==> device in {w.device} + (if w.includeBelow then below else {})
  {
  }

  /** The window a device is under at an instant: its own before one above it. */
  method Covering(windows: seq<Window>, device: Option<Id>, above: set<Id>, when: int,
          tz: int) returns (found: Option<Window>)
    requires forall i :: 0 <= i < |windows| ==> windows[i].starts <= windows[i].ends
    ensures found.Some? <==> device.Some? && Under(windows, device.value, above, when)
    ensures found.Some? ==> found.value in windows && UnderOne(found.value, device.value, above, when)
    ensures found.Some? && found.value.device != device.value ==>
              forall i :: 0 <= i < |windows| && windows[i].device == device.value ==> !UnderAt(windows[i], when)
  {
    if device.None? {
      return None;
    }
    for i := 0 to |windows|
      invariant forall j :: 0 <= j < i && windows[j].device == device.value ==> !UnderAt(windows[j], when)
    {
      OnIsUnder(windows[i], when, tz);
      if On(windows[i], when, tz) && windows[i].device == device.value {
        return Some(windows[i]);
      }
    }
    for i := 0 to |windows|
      invariant forall j :: 0 <= j < i ==> !UnderOne(windows[j], device.value, above, when)
    {
      OnIsUnder(windows[i], when, tz);
      if On(windows[i], when, tz) && windows[i].includeBelow && windows[i].device in above {
        return Some(windows[i]);
      }
    }
    found := None;
  }

  // -------------------------------------------------------- every stretch under one

  predicate InSpans(spans: seq<Span>, t: int) {
    exists i :: 0 <= i < |spans| && spans[i].Holds(t)
  }

  predicate Reaches(s: Span, start: int, end: int) {
    s.end > start && s.start < end
  }

  predicate ByStart(spans: seq<Span>) {
    forall i, j :: 0 <= i < j < |spans| ==> spans[i].start <= spans[j].start
  }

  function Insert(s: Span, spans: seq<Span>): (r: seq<Span>)
    requires ByStart(spans)
    ensures ByStart(r) && |r| == |spans| + 1
    ensures forall x :: x in r <==> x == s || x in spans
  {
    if spans == [] then [s]
    else if s.start < spans[0].start then [s] + spans
    else
      var rest := Insert(s, spans[1..]);
      assert forall x :: x in spans <==> x == spans[0] || x in spans[1..];
      assert forall i :: 0 <= i < |rest| ==> rest[i] in rest;
      [spans[0]] + rest
  }

  function SortedByStart(spans: seq<Span>): (r: seq<Span>)
    ensures ByStart(r) && |r| == |spans|
    ensures forall x :: x in r <==> x in spans
  {
    if spans == [] then []
    else
      assert forall x :: x in spans <==> x == spans[0] || x in spans[1..];
      Insert(spans[0], SortedByStart(spans[1..]))
  }

  /** Sorted, disjoint, and not even touching. */
  ghost predicate Apart(spans: seq<Span>) {
    && (forall i :: 0 <= i < |spans| ==> spans[i].start <= spans[i].end)
    && (forall i, j :: 0 <= i < j < |spans| ==> spans[i].end < spans[j].start)
  }

  function MergedWith(merged: seq<Span>, piece: Span): seq<Span> {
    var n := |merged|;
    if merged != [] && piece.start <= merged[n - 1].end
    then merged[n - 1 := Span(merged[n - 1].start, Max(merged[n - 1].end, piece.end))]
    else merged + [piece]
  }

  lemma MergeApart(merged: seq<Span>, piece: Span)
    requires Apart(merged) && piece.start <= piece.end
    requires merged != [] ==> merged[|merged| - 1].start <= piece.start
    ensures var after := MergedWith(merged, piece);
            Apart(after) && after != [] && after[|after| - 1].start <= piece.start
  {
  }

  lemma {:induction false} MergeCovers(merged: seq<Span>, piece: Span, t: int)
    requires Apart(merged) && piece.start <= piece.end
    requires merged != [] ==> merged[|merged| - 1].start <= piece.start
    ensures InSpans(MergedWith(merged, piece), t) <==> InSpans(merged, t) || piece.Holds(t)
  {
    var after, n := MergedWith(merged, piece), |merged|;
    if InSpans(merged, t) {
      var i :| 0 <= i < n && merged[i].Holds(t);
      assert after[i].Holds(t);
    }
    if piece.Holds(t) {
      assert after[|after| - 1].Holds(t);
    }
    if InSpans(after, t) && !piece.Holds(t) {
      var i :| 0 <= i < |after| && after[i].Holds(t);
      assert merged[i].Holds(t);
    }
  }

  ghost predicate SameTime(a: seq<Span>, b: seq<Span>) {
    forall t :: InSpans(a, t) <==> InSpans(b, t)
  }

  /** The first pieces, merged. */
  ghost predicate MergedSoFar(merged: seq<Span>, pieces: seq<Span>, i: nat)
    requires i <= |pieces|
  {
    && Apart(merged) && (merged == [] <==> i == 0)
    && (i > 0 ==> merged[|merged| - 1].start <= pieces[i - 1].start)
    && SameTime(merged, pieces[..i])
  }

  lemma {:induction false} MergeKeeps(merged: seq<Span>, pieces: seq<Span>, i: nat)
    requires i < |pieces| && ByStart(pieces) && pieces[i].start <= pieces[i].end && MergedSoFar(merged, pieces, i)
    ensures MergedSoFar(MergedWith(merged, pieces[i]), pieces, i + 1)
  {
    MergeApart(merged, pieces[i]);
    OneMore(pieces, i);
    var after := MergedWith(merged, pieces[i]);
    forall t ensures InSpans(after, t) <==> InSpans(pieces[..i + 1], t) {
      MergeCovers(merged, pieces[i], t);
    }
  }

  /** Sort the pieces by start, and let each run on from the last it meets. */
  method Merge(found: seq<Span>) returns (merged: seq<Span>)
    requires forall s :: s in found ==> s.start <= s.end
    ensures Apart(merged) && SameTime(merged, found)
  {
    var pieces := SortedByStart(found);
    forall i | 0 <= i < |pieces| ensures pieces[i].start <= pieces[i].end {
      assert pieces[i] in pieces;
    }
    merged := MergeSorted(pieces);
    SameElements(pieces, found);
  }

  method MergeSorted(pieces: seq<Span>) returns (merged: seq<Span>)
    requires ByStart(pieces) && forall i :: 0 <= i < |pieces| ==> pieces[i].start <= pieces[i].end
    ensures Apart(merged) && SameTime(merged, pieces)
  {
    merged := [];
    MergedNone(pieces);
    for i := 0 to |pieces|
      invariant MergedSoFar(merged, pieces, i)
    {
      var piece, n := pieces[i], |merged|;
      ghost var next := MergedWith(merged, piece);
      MergeKeeps(merged, pieces, i);
      if merged != [] && piece.start <= merged[n - 1].end {
        merged := merged[n - 1 := Span(merged[n - 1].start, Max(merged[n - 1].end, piece.end))];
      } else {
        merged := merged + [piece];
      }
      assert merged == next;
    }
    MergedAll(merged, pieces);
  }

  lemma MergedNone(pieces: seq<Span>)
    ensures MergedSoFar([], pieces, 0)
  {
  }

  lemma MergedAll(merged: seq<Span>, pieces: seq<Span>)
    requires MergedSoFar(merged, pieces, |pieces|)
    ensures Apart(merged) && SameTime(merged, pieces)
  {
    assert pieces[..|pieces|] == pieces;
  }

  lemma OneMore(pieces: seq<Span>, i: nat)
    requires i < |pieces|
    ensures forall t :: InSpans(pieces[..i + 1], t) <==> InSpans(pieces[..i], t) || pieces[i].Holds(t)
  {
    forall t ensures InSpans(pieces[..i + 1], t) <==> InSpans(pieces[..i], t) || pieces[i].Holds(t) {
      if InSpans(pieces[..i], t) {
        var k :| 0 <= k < i && pieces[..i][k].Holds(t);
        assert pieces[..i + 1][k].Holds(t);
      }
      if pieces[i].Holds(t) {
        assert pieces[..i + 1][i].Holds(t);
      }
      if InSpans(pieces[..i + 1], t) && !pieces[i].Holds(t) {
        var k :| 0 <= k < i + 1 && pieces[..i + 1][k].Holds(t);
        assert pieces[..i][k].Holds(t);
      }
    }
  }

  lemma SameElements(a: seq<Span>, b: seq<Span>)
    requires forall x :: x in a <==> x in b
    ensures SameTime(a, b)
  {
    forall t ensures InSpans(a, t) <==> InSpans(b, t) {
      if InSpans(a, t) {
        var i :| 0 <= i < |a| && a[i].Holds(t);
        assert a[i] in b;
        var j :| 0 <= j < |b| && b[j] == a[i];
        assert b[j].Holds(t);
      }
      if InSpans(b, t) {
        var i :| 0 <= i < |b| && b[i].Holds(t);
        assert b[i] in a;
        var j :| 0 <= j < |a| && a[j] == b[i];
        assert a[j].Holds(t);
      }
    }
  }

  lemma OccurrencesReached(w: Window, start: int, end: int, tz: int, i: nat)
    requires Sane(w) && w.weekly && start <= end && Reaches(SpanNo(w, i), start, end)
    ensures Max(0, Index(w, start, tz)) <= i <= Index(w, end, tz)
  {
    IndexIs(w, start, tz);
    IndexIs(w, end, tz);
  }

  /** The occurrences of one window that may reach a range: all that do. */
  method OccurrencesOver(w: Window, start: int, end: int, tz: int) returns (found: seq<Span>)
    requires Sane(w) && start <= end
    ensures forall s :: s in found ==> OneOf(w, s)
    ensures forall i: nat :: (w.weekly || i == 0) && Reaches(SpanNo(w, i), start, end) ==> SpanNo(w, i) in found
  {
    if !w.weekly {
      assert IsSpan(w, 0, Span(w.starts, w.ends));
      return [Span(w.starts, w.ends)];
    }
    IndexIs(w, start, tz);
    var from, upTo := Max(0, Index(w, start, tz)), Index(w, end, tz) + 1;
    found := [];
    var index := from;
    while index < upTo
      invariant 0 <= from <= index && (index <= upTo || index == from)
      invariant |found| == index - from
      invariant forall k :: 0 <= k < |found| ==> found[k] == SpanNo(w, from + k) && IsSpan(w, from + k, found[k])
    {
      OccurrenceIs(w, index, tz);
      found := found + [Occurrence(w, index, tz)];
      index := index + 1;
    }
    forall i: nat | Reaches(SpanNo(w, i), start, end) ensures SpanNo(w, i) in found {
      OccurrencesReached(w, start, end, tz, i);
      assert found[i - from] == SpanNo(w, i);
    }
  }

  /** A window that may be on in a range, for this device. */
  predicate Wanted(w: Window, device: Id, above: set<Id>, start: int, end: int) {
    w.starts < end && (w.weekly || w.ends > start) && Applies(w, device, above)
  }

  /** A piece of one of the windows the device is under. */
  ghost predicate PieceOf(windows: seq<Window>, device: Id, above: set<Id>, s: Span) {
    exists i :: 0 <= i < |windows| && Applies(windows[i], device, above) && OneOf(windows[i], s)
  }

  /** Every stretch of every such window that reaches the range is found. */
  ghost predicate AllPieces(windows: seq<Window>, device: Id, above: set<Id>, start: int, end: int, n: nat,
          found: seq<Span>)
    requires n <= |windows|
  {
    forall k, i: nat :: 0 <= k < n && MustFind(windows[k], i, device, above, start, end) ==>
      SpanNo(windows[k], i) in found
  }

  predicate MustFind(w: Window, i: nat, device: Id, above: set<Id>, start: int, end: int) {
    Applies(w, device, above) && (w.weekly || i == 0) && Reaches(SpanNo(w, i), start, end)
  }

  method PiecesOver(windows: seq<Window>, device: Id, above: set<Id>, start: int, end: int,
          tz: int) returns (found: seq<Span>)
    requires start <= end && forall i :: 0 <= i < |windows| ==> Sane(windows[i])
    ensures forall s :: s in found ==> PieceOf(windows, device, above, s)
    ensures AllPieces(windows, device, above, start, end, |windows|, found)
  {
    found := [];
    for k := 0 to |windows|
      invariant forall s :: s in found ==> PieceOf(windows, device, above, s)
      invariant AllPieces(windows, device, above, start, end, k, found)
    {
      if Wanted(windows[k], device, above, start, end) {
        var more := OccurrencesOver(windows[k], start, end, tz);
        found := found + more;
      }
    }
  }

  lemma PieceIsUnder(windows: seq<Window>, device: Id, above: set<Id>, s: Span, t: int)
    requires PieceOf(windows, device, above, s) && s.Holds(t)
    ensures Under(windows, device, above, t)
  {
    var k :| 0 <= k < |windows| && Applies(windows[k], device, above) && OneOf(windows[k], s);
    var i: nat :| IsSpan(windows[k], i, s);
    assert OnAt(windows[k], i, t);
    assert UnderOne(windows[k], device, above, t);
  }

  lemma PieceIsProper(windows: seq<Window>, device: Id, above: set<Id>, s: Span)
    requires PieceOf(windows, device, above, s) && forall i :: 0 <= i < |windows| ==> Sane(windows[i])
    ensures s.start <= s.end
  {
  }

  function Reaching(found: seq<Span>, start: int, end: int): (r: seq<Span>)
    ensures forall s :: s in r <==> s in found && Reaches(s, start, end)
  {
    if found == [] then []
    else
      var rest := Reaching(found[1..], start, end);
      if Reaches(found[0], start, end) then [found[0]] + rest else rest
  }

  /** The stretches are of time under a window, and in the range miss none. */
  ghost predicate AreSpansOver(spans: seq<Span>, windows: seq<Window>, device: Id, above: set<Id>, start: int,
          end: int) {
    && Apart(spans)
    && (forall t :: InSpans(spans, t) ==> Under(windows, device, above, t))
    && (forall t :: start <= t < end && Under(windows, device, above, t) ==> InSpans(spans, t))
  }

  lemma {:induction false} UnderIsFound(windows: seq<Window>, device: Id, above: set<Id>, start: int, end: int,
          found: seq<Span>, t: int)
    requires AllPieces(windows, device, above, start, end, |windows|, found)
    requires start <= t < end && Under(windows, device, above, t)
    ensures InSpans(Reaching(found, start, end), t)
  {
    var k :| 0 <= k < |windows| && UnderOne(windows[k], device, above, t);
    var i: nat :| OnAt(windows[k], i, t);
    assert MustFind(windows[k], i, device, above, start, end);
    var s, reaching := SpanNo(windows[k], i), Reaching(found, start, end);
    assert s in reaching;
    var j :| 0 <= j < |reaching| && reaching[j] == s;
    assert reaching[j].Holds(t);
  }

  /** When windows covered a device inside a range, as stretches that are apart and
      in order: no weekly occurrence is missed, and none made up. */
  method SpansOver(windows: seq<Window>, device: Id, above: set<Id>, start: int, end: int,
          tz: int) returns (spans: seq<Span>)
    requires start <= end && forall i :: 0 <= i < |windows| ==> Sane(windows[i])
    ensures AreSpansOver(spans, windows, device, above, start, end)
  {
    var found := PiecesOver(windows, device, above, start, end, tz);
    var reaching := Reaching(found, start, end);
    forall s | s in reaching ensures s.start <= s.end {
      PieceIsProper(windows, device, above, s);
    }
    spans := Merge(reaching);
    forall t | InSpans(spans, t) ensures Under(windows, device, above, t) {
      var j :| 0 <= j < |reaching| && reaching[j].Holds(t);
      assert reaching[j] in found;
      PieceIsUnder(windows, device, above, reaching[j], t);
    }
    forall t | start <= t < end && Under(windows, device, above, t) ensures InSpans(spans, t) {
      UnderIsFound(windows, device, above, start, end, found, t);
    }
  }
}
